/**
 The packet pipeline as one transition system over tagged addresses: the specification that
 the IPv4 and IPv6 branches of the filter both follow.
 */
module Pipeline {
  import opened Words
  import TB = TokenBucket
  import GG = GlobalGate

  datatype Addr = V4(v4: nat) | V6(v6: nat)

  /** The addresses of one family. */
  function Family(s: set<Addr>, v6: bool): set<Addr> {
    set a | a in s && a.V6? == v6
  }

  datatype Header = Header(src: nat, proto: nat)

  /** A received frame: cut short before its Ethernet header, of another EtherType, or IP with a whole or cut header. */
  datatype Frame =
    | Runt
    | Other
    | Ipv4(header4: Option<Header>)
    | Ipv6(header6: Option<Header>)

  function Source(f: Frame): Option<Addr> {
    match f
    case Ipv4(Some(h)) => Some(V4(h.src))
    case Ipv6(Some(h)) => Some(V6(h.src))
    case _ => None
  }

  function Protocol(f: Frame): nat
    requires Source(f).Some?
  {
    if f.Ipv4? then f.header4.value.proto else f.header6.value.proto
  }

  /** Which of the map updates and the ring-buffer reservation of one packet would succeed. */
  datatype Writes = Writes(meter: bool, blacklist: bool, rate: bool, ring: bool)

  datatype Alert = Alert(src: Addr, reason: nat, timestamp: U64)

  datatype State = State(
    counter: U64,
    gate: TB.Bucket,
    allow: set<Addr>,
    proto: map<nat, nat>,
    meter: map<Addr, U32>,
    black: set<Addr>,
    rate: map<Addr, TB.Bucket>,
    alerts: seq<Alert>)

  /** The maps as they are when the program is loaded. */
  const EMPTY := State(0, TB.Bucket(0, 0), {}, map[], map[], {}, map[], [])

  /** Where in the pipeline a packet's fate was decided. */
  datatype Outcome =
    | RuntPass | GateDrop | OtherPass | ShortPass | AllowPass | ProtoDrop | BlackDrop | BucketDrop | BucketPass | FirstPass
  {
    predicate Passed() {
      RuntPass? || OtherPass? || ShortPass? || AllowPass? || BucketPass? || FirstPass?
    }

    /** The packet got as far as the per-source packet counter. */
    predicate Metered() {
      BlackDrop? || BucketDrop? || BucketPass? || FirstPass?
    }
  }

  // ----- One packet ----------------------------------------------------------------------

  function Counted(st: State): State {
    st.(counter := Inc64(st.counter))
  }

  function Metered(st: State, x: Addr, w: Writes): State {
    if x in st.meter then st.(meter := st.meter[x := Inc32(st.meter[x])])
    else if w.meter then st.(meter := st.meter[x := 1])
    else st
  }

  function Charged(st: State, now: U64, x: Addr): State
    requires x in st.rate
  {
    st.(rate := st.rate[x := TB.AfterCheck(st.rate[x], now)])
  }

  function AutoBlocked(st: State, now: U64, x: Addr, w: Writes): State {
    st.(black := if w.blacklist then st.black + {x} else st.black,
        alerts := if w.ring then st.alerts + [Alert(x, 1, now)] else st.alerts)
  }

  /** The last stage: the source's own token bucket. */
  function Limited(st: State, now: U64, x: Addr, w: Writes): (State, Outcome) {
    if x in st.rate then
      if TB.Passes(st.rate[x], now) then (Charged(st, now, x), BucketPass)
      else (AutoBlocked(Charged(st, now, x), now, x, w), BucketDrop)
    else
      (if w.rate then st.(rate := st.rate[x := TB.Fresh(now)]) else st, FirstPass)
  }

  /** Everything after the gate, for a packet with a whole IP header. */
  function Inspect(st: State, now: U64, x: Addr, proto: nat, w: Writes): (State, Outcome) {
    if x in st.allow then (st, AllowPass)
    else if proto in st.proto && st.proto[proto] == 1 then (st, ProtoDrop)
    else
      var st' := Metered(st, x, w);
      if x in st.black then (st', BlackDrop) else Limited(st', now, x, w)
  }

  function Gated(st: State, now: U64): State {
    Counted(st).(gate := GG.AfterCheck(st.gate, now))
  }

  predicate Clears(st: State, now: U64, f: Frame) {
    !f.Runt? && GG.Passes(st.gate, now)
  }

  function Receive(st: State, now: U64, f: Frame, w: Writes): (State, Outcome) {
    if f.Runt? then (st, RuntPass)
    else if !Clears(st, now, f) then (Gated(st, now), GateDrop)
    else if Source(f).Some? then Inspect(Gated(st, now), now, Source(f).value, Protocol(f), w)
    else (Gated(st, now), if f.Other? then OtherPass else ShortPass)
  }

  // ----- Runs ----------------------------------------------------------------------------

  /** What can happen to the kernel's maps: packets, LRU evictions, and writes from userspace. */
  datatype Action =
    | Packet(frame: Frame, writes: Writes)
    | EvictRate(addr: Addr)
    | EvictMeter(addr: Addr)
    | Allow(addr: Addr)
    | Disallow(addr: Addr)
    | Block(addr: Addr)
    | Unblock(addr: Addr)
    | SetProto(proto: nat, action: nat)

  datatype Event = At(now: U64, act: Action)

  function Step(st: State, e: Event): State {
    match e.act
    case Packet(f, w) => Receive(st, e.now, f, w).0
    case EvictRate(a) => st.(rate := st.rate - {a})
    case EvictMeter(a) => st.(meter := st.meter - {a})
    case Allow(a) => st.(allow := st.allow + {a})
    case Disallow(a) => st.(allow := st.allow - {a})
    case Block(a) => st.(black := st.black + {a})
    case Unblock(a) => st.(black := st.black - {a})
    case SetProto(p, n) => st.(proto := st.proto[p := n])
  }

  function Run(st: State, es: seq<Event>): State
    decreases |es|
  {
    if es == [] then st else Run(Step(st, es[0]), es[1..])
  }

  /** The clock never goes back: events are stamped in order, the first no earlier than t. */
  predicate InOrder(es: seq<Event>, t: int)
    decreases |es|
  {
    es == [] || (t <= es[0].now && InOrder(es[1..], es[0].now))
  }

  /** All outcomes of a run, in order. */
  function Outcomes(st: State, es: seq<Event>): seq<Outcome>
    decreases |es|
  {
    if es == [] then []
    else
      (if es[0].act.Packet? then [Receive(st, es[0].now, es[0].act.frame, es[0].act.writes).1] else [])
      + Outcomes(Step(st, es[0]), es[1..])
  }
}
