/**
 The XDP program itself: two families of maps, two copies of the pipeline, buckets updated in
 place. Both copies are proved to do what Pipeline.Receive says.
 */
module Filter {
  import opened Words
  import opened Pipeline
  import TB = TokenBucket
  import GG = GlobalGate

  datatype Verdict = XdpPass | XdpDrop

  /** A tagged address is a key of its family's map, and what it is mapped to there. */
  predicate Has<V>(m4: map<nat, V>, m6: map<nat, V>, a: Addr) {
    if a.V4? then a.v4 in m4 else a.v6 in m6
  }

  function Get<V>(m4: map<nat, V>, m6: map<nat, V>, a: Addr): V
    requires Has(m4, m6, a)
  {
    if a.V4? then m4[a.v4] else m6[a.v6]
  }

  ghost predicate SameKeys<V>(keys: set<Addr>, m4: map<nat, V>, m6: map<nat, V>) {
    forall a :: a in keys <==> Has(m4, m6, a)
  }

  ghost predicate SameEntries<V>(m: map<Addr, V>, m4: map<nat, V>, m6: map<nat, V>) {
    SameKeys(m.Keys, m4, m6) && forall a :: a in m ==> m[a] == Get(m4, m6, a)
  }

  /** No bucket is shared by two keys. */
  ghost predicate Distinct(m4: map<nat, TB.Cell>, m6: map<nat, TB.Cell>) {
    forall a, b :: Has(m4, m6, a) && Has(m4, m6, b) && Get(m4, m6, a) == Get(m4, m6, b) ==> a == b
  }

  lemma AddedV4<V>(m4: map<nat, V>, m6: map<nat, V>, k: nat, v: V)
    ensures forall a :: Has(m4[k := v], m6, a) <==> Has(m4, m6, a) || a == V4(k)
    ensures forall a :: Has(m4[k := v], m6, a) ==> Get(m4[k := v], m6, a) == if a == V4(k) then v else Get(m4, m6, a)
  {
    forall a
      ensures Has(m4[k := v], m6, a) <==> Has(m4, m6, a) || a == V4(k)
      ensures Has(m4[k := v], m6, a) ==> Get(m4[k := v], m6, a) == if a == V4(k) then v else Get(m4, m6, a)
    {
      assert a == if a.V4? then V4(a.v4) else V6(a.v6);
    }
  }

  lemma AddedV6<V>(m4: map<nat, V>, m6: map<nat, V>, k: nat, v: V)
    ensures forall a :: Has(m4, m6[k := v], a) <==> Has(m4, m6, a) || a == V6(k)
    ensures forall a :: Has(m4, m6[k := v], a) ==> Get(m4, m6[k := v], a) == if a == V6(k) then v else Get(m4, m6, a)
  {
    forall a
      ensures Has(m4, m6[k := v], a) <==> Has(m4, m6, a) || a == V6(k)
      ensures Has(m4, m6[k := v], a) ==> Get(m4, m6[k := v], a) == if a == V6(k) then v else Get(m4, m6, a)
    {
      assert a == if a.V4? then V4(a.v4) else V6(a.v6);
    }
  }

  lemma DistinctV4(m4: map<nat, TB.Cell>, m6: map<nat, TB.Cell>, k: nat, tb: TB.Cell)
    requires Distinct(m4, m6) && forall a :: Has(m4, m6, a) ==> Get(m4, m6, a) != tb
    ensures Distinct(m4[k := tb], m6)
  {
    var n4 := m4[k := tb];
    forall a, b | Has(n4, m6, a) && Has(n4, m6, b) && Get(n4, m6, a) == Get(n4, m6, b)
      ensures a == b
    {
      AddedV4(m4, m6, k, tb);
      assert a != V4(k) ==> Get(n4, m6, a) == Get(m4, m6, a);
      assert b != V4(k) ==> Get(n4, m6, b) == Get(m4, m6, b);
    }
  }

  lemma DistinctV6(m4: map<nat, TB.Cell>, m6: map<nat, TB.Cell>, k: nat, tb: TB.Cell)
    requires Distinct(m4, m6) && forall a :: Has(m4, m6, a) ==> Get(m4, m6, a) != tb
    ensures Distinct(m4, m6[k := tb])
  {
    var n6 := m6[k := tb];
    forall a, b | Has(m4, n6, a) && Has(m4, n6, b) && Get(m4, n6, a) == Get(m4, n6, b)
      ensures a == b
    {
      AddedV6(m4, m6, k, tb);
      assert a != V6(k) ==> Get(m4, n6, a) == Get(m4, m6, a);
      assert b != V6(k) ==> Get(m4, n6, b) == Get(m4, m6, b);
    }
  }

  class Maps {
    var globalCounter: U64
    const globalRate: GG.Gate
    var protoFilter: map<nat, nat>
    var ringbuf: seq<Alert>

    var allowlist: map<nat, U32>
    var meter: map<nat, U32>
    var blacklist: map<nat, U32>
    var rate: map<nat, TB.Cell>

    var allowlistV6: map<nat, U32>
    var meterV6: map<nat, U32>
    var blacklistV6: map<nat, U32>
    var rateV6: map<nat, TB.Cell>

    /** The contents of all maps, keyed by tagged address, and the objects they are kept in. */
    ghost var state: State
    ghost var Repr: set<object>

    ghost predicate Valid()
      reads this, Repr
      ensures Valid() ==> this in Repr
    {
      && this in Repr && globalRate in Repr
      && (forall a :: Has(rate, rateV6, a) ==> Get(rate, rateV6, a) in Repr)
      && state.counter == globalCounter
      && state.gate == globalRate.Value()
      && state.proto == protoFilter
      && state.alerts == ringbuf
      && SameKeys(state.allow, allowlist, allowlistV6)
      && SameKeys(state.black, blacklist, blacklistV6)
      && SameEntries(state.meter, meter, meterV6)
      && SameKeys(state.rate.Keys, rate, rateV6)
      && Distinct(rate, rateV6)
      && (forall a :: a in state.rate ==> state.rate[a] == Get(rate, rateV6, a).Value())
    }

    constructor ()
      ensures Valid() && fresh(Repr) && state == EMPTY
    {
      globalRate := new GG.Gate();
      globalCounter, protoFilter, ringbuf := 0, map[], [];
      allowlist, meter, blacklist, rate := map[], map[], map[], map[];
      allowlistV6, meterV6, blacklistV6, rateV6 := map[], map[], map[], map[];
      state := EMPTY;
      Repr := {this, globalRate};
    }

    twostate predicate UnchangedV4()
      reads this, rate.Values
    {
      && allowlist == old(allowlist) && meter == old(meter) && blacklist == old(blacklist) && rate == old(rate)
      && forall k :: k in rate ==> rate[k].Value() == old(rate[k].Value())
    }

    twostate predicate UnchangedV6()
      reads this, rateV6.Values
    {
      && allowlistV6 == old(allowlistV6) && meterV6 == old(meterV6)
      && blacklistV6 == old(blacklistV6) && rateV6 == old(rateV6)
      && forall k :: k in rateV6 ==> rateV6[k].Value() == old(rateV6[k].Value())
    }

    method FluxguardFilter(now: U64, frame: Frame, w: Writes) returns (verdict: Verdict)
      requires Valid()
      modifies Repr
      ensures Valid() && fresh(Repr - old(Repr))
      ensures state == Receive(old(state), now, frame, w).0
      ensures verdict == if Receive(old(state), now, frame, w).1.Passed() then XdpPass else XdpDrop
      ensures !frame.Ipv6? ==> UnchangedV6()
      ensures !frame.Ipv4? ==> UnchangedV4()
    {
      if frame.Runt? {
        return XdpPass;
      }
      var shieldsUp := ShieldsUp(now);
      if shieldsUp {
        return XdpDrop;
      }
      match frame {
        case Ipv4(header) =>
          if header.None? {
            return XdpPass;
          }
          verdict := FilterV4(now, header.value.src, header.value.proto, w);
        case Ipv6(header) =>
          if header.None? {
            return XdpPass;
          }
          verdict := FilterV6(now, header.value.src, header.value.proto, w);
        case Other =>
          return XdpPass;
      }
    }

    /** The packet counter and the global bucket, common to all EtherTypes. */
    method ShieldsUp(now: U64) returns (drop: bool)
      requires Valid()
      modifies this`globalCounter, this`state, globalRate
      ensures Valid()
      ensures state == Gated(old(state), now)
      ensures drop == !GG.Passes(old(state.gate), now)
      ensures forall k :: k in rate ==> rate[k].Value() == old(rate[k].Value())
      ensures forall k :: k in rateV6 ==> rateV6[k].Value() == old(rateV6[k].Value())
    {
      globalCounter := Inc64(globalCounter);
      drop := globalRate.Check(now);
      state := Gated(state, now);
    }

    method FilterV4(now: U64, src: nat, proto: nat, w: Writes) returns (verdict: Verdict)
      requires Valid()
      modifies Repr
      ensures Valid() && fresh(Repr - old(Repr))
      ensures state == Inspect(old(state), now, V4(src), proto, w).0
      ensures verdict == if Inspect(old(state), now, V4(src), proto, w).1.Passed() then XdpPass else XdpDrop
      ensures UnchangedV6()
    {
      assert src in allowlist <==> V4(src) in state.allow;
      if src in allowlist {
        return XdpPass;
      }
      if proto in protoFilter && protoFilter[proto] == 1 {
        return XdpDrop;
      }
      var drop := MeterV4(now, src, w);
      return if drop then XdpDrop else XdpPass;
    }

    /** What is left for a source that is neither allowlisted nor filtered by protocol: it is counted and judged. */
    method MeterV4(now: U64, src: nat, w: Writes) returns (drop: bool)
      requires Valid()
      modifies Repr
      ensures Valid() && fresh(Repr - old(Repr))
      ensures var st := Metered(old(state), V4(src), w);
              if V4(src) in st.black then drop && state == st
              else state == Limited(st, now, V4(src), w).0 && drop == !Limited(st, now, V4(src), w).1.Passed()
      ensures UnchangedV6()
    {
      CountV4(src, w);
      drop := JudgeV4(now, src, w);
    }

    /** Blacklist and token bucket. */
    method JudgeV4(now: U64, src: nat, w: Writes) returns (drop: bool)
      requires Valid()
      modifies Repr
      ensures Valid() && fresh(Repr - old(Repr))
      ensures V4(src) in old(state.black) ==> drop && state == old(state)
      ensures V4(src) !in old(state.black) ==>
        var (st, o) := Limited(old(state), now, V4(src), w); state == st && drop == !o.Passed()
      ensures UnchangedV6()
    {
      assert src in blacklist <==> V4(src) in state.black;
      if src in blacklist {
        return true;
      }
      drop := LimitV4(now, src, w);
    }

    method CountV4(src: nat, w: Writes)
      requires Valid()
      modifies this`meter, this`state
      ensures Valid()
      ensures state == Metered(old(state), V4(src), w)
    {
      if src in meter {
        meter := meter[src := Inc32(meter[src])];
      } else if w.meter {
        meter := meter[src := 1];
      }
      state := Metered(state, V4(src), w);
    }

    method LimitV4(now: U64, src: nat, w: Writes) returns (drop: bool)
      requires Valid()
      modifies Repr
      ensures Valid() && fresh(Repr - old(Repr))
      ensures state == Limited(old(state), now, V4(src), w).0
      ensures drop == !Limited(old(state), now, V4(src), w).1.Passed()
      ensures UnchangedV6()
    {
      assert src in rate <==> V4(src) in state.rate;
      drop := false;
      if src in rate {
        drop := CheckV4(now, src, w);
      } else if w.rate {
        InsertV4(now, src);
      }
    }

    method CheckV4(now: U64, src: nat, w: Writes) returns (drop: bool)
      requires Valid() && src in rate
      modifies this`blacklist, this`ringbuf, this`state, rate[src]
      ensures Valid()
      ensures V4(src) in old(state.rate) && drop == !TB.Passes(old(state.rate[V4(src)]), now)
      ensures var st := Charged(old(state), now, V4(src));
              state == if drop then AutoBlocked(st, now, V4(src), w) else st
      ensures UnchangedV6()
    {
      drop := ChargeV4(now, src);
      if drop {
        AutoBlockV4(now, src, w);
      }
    }

    method ChargeV4(now: U64, src: nat) returns (drop: bool)
      requires Valid() && src in rate
      modifies this`state, rate[src]
      ensures Valid()
      ensures V4(src) in old(state.rate) && state == Charged(old(state), now, V4(src))
      ensures drop == !TB.Passes(old(state.rate[V4(src)]), now)
      ensures UnchangedV6()
    {
      assert Has(rate, rateV6, V4(src)) && V4(src) in state.rate;
      forall k | k in rateV6 ensures rateV6[k] != rate[src] {
        assert Get(rate, rateV6, V6(k)) == rateV6[k] && Get(rate, rateV6, V4(src)) == rate[src];
      }
      drop := rate[src].Check(now);
      state := Charged(state, now, V4(src));
    }

    method AutoBlockV4(now: U64, src: nat, w: Writes)
      requires Valid()
      modifies this`blacklist, this`ringbuf, this`state
      ensures Valid()
      ensures state == AutoBlocked(old(state), now, V4(src), w)
    {
      if w.blacklist {
        blacklist := blacklist[src := 1];
      }
      if w.ring {
        ringbuf := ringbuf + [Alert(V4(src), 1, now)];
      }
      state := AutoBlocked(state, now, V4(src), w);
    }

    method InsertV4(now: U64, src: nat)
      requires Valid() && src !in rate
      modifies this`rate, this`state, this`Repr
      ensures Valid() && fresh(Repr - old(Repr))
      ensures state == old(state).(rate := old(state.rate)[V4(src) := TB.Fresh(now)])
      ensures UnchangedV6()
    {
      var tb := new TB.Cell(now, TB.LIMIT - 1);
      InstallV4(src, tb);
    }

    /** Puts a bucket that belongs to no key yet into the map. */
    method InstallV4(src: nat, tb: TB.Cell)
      requires Valid() && src !in rate && tb !in Repr
      modifies this`rate, this`state, this`Repr
      ensures Valid() && Repr == old(Repr) + {tb}
      ensures state == old(state).(rate := old(state.rate)[V4(src) := tb.Value()])
    {
      DistinctV4(rate, rateV6, src, tb);
      AddedV4(rate, rateV6, src, tb);
      ghost var rate4, rate6 := rate, rateV6;
      rate := rate[src := tb];
      Repr := Repr + {tb};
      state := state.(rate := state.rate[V4(src) := tb.Value()]);
      forall a | Has(rate, rateV6, a)
        ensures Get(rate, rateV6, a) in Repr && a in state.rate && state.rate[a] == Get(rate, rateV6, a).Value()
      {
        assert a != V4(src) ==> Has(rate4, rate6, a) && Get(rate, rateV6, a) == Get(rate4, rate6, a);
      }
    }

    method FilterV6(now: U64, src: nat, proto: nat, w: Writes) returns (verdict: Verdict)
      requires Valid()
      modifies Repr
      ensures Valid() && fresh(Repr - old(Repr))
      ensures state == Inspect(old(state), now, V6(src), proto, w).0
      ensures verdict == if Inspect(old(state), now, V6(src), proto, w).1.Passed() then XdpPass else XdpDrop
      ensures UnchangedV4()
    {
      assert src in allowlistV6 <==> V6(src) in state.allow;
      if src in allowlistV6 {
        return XdpPass;
      }
      if proto in protoFilter && protoFilter[proto] == 1 {
        return XdpDrop;
      }
      var drop := MeterV6(now, src, w);
      return if drop then XdpDrop else XdpPass;
    }

    /** What is left for a source that is neither allowlisted nor filtered by protocol: it is counted and judged. */
    method MeterV6(now: U64, src: nat, w: Writes) returns (drop: bool)
      requires Valid()
      modifies Repr
      ensures Valid() && fresh(Repr - old(Repr))
      ensures var st := Metered(old(state), V6(src), w);
              if V6(src) in st.black then drop && state == st
              else state == Limited(st, now, V6(src), w).0 && drop == !Limited(st, now, V6(src), w).1.Passed()
      ensures UnchangedV4()
    {
      CountV6(src, w);
      drop := JudgeV6(now, src, w);
    }

    /** Blacklist and token bucket. */
    method JudgeV6(now: U64, src: nat, w: Writes) returns (drop: bool)
      requires Valid()
      modifies Repr
      ensures Valid() && fresh(Repr - old(Repr))
      ensures V6(src) in old(state.black) ==> drop && state == old(state)
      ensures V6(src) !in old(state.black) ==>
        var (st, o) := Limited(old(state), now, V6(src), w); state == st && drop == !o.Passed()
      ensures UnchangedV4()
    {
      assert src in blacklistV6 <==> V6(src) in state.black;
      if src in blacklistV6 {
        return true;
      }
      drop := LimitV6(now, src, w);
    }

    method CountV6(src: nat, w: Writes)
      requires Valid()
      modifies this`meterV6, this`state
      ensures Valid()
      ensures state == Metered(old(state), V6(src), w)
    {
      if src in meterV6 {
        meterV6 := meterV6[src := Inc32(meterV6[src])];
      } else if w.meter {
        meterV6 := meterV6[src := 1];
      }
      state := Metered(state, V6(src), w);
    }

    method LimitV6(now: U64, src: nat, w: Writes) returns (drop: bool)
      requires Valid()
      modifies Repr
      ensures Valid() && fresh(Repr - old(Repr))
      ensures state == Limited(old(state), now, V6(src), w).0
      ensures drop == !Limited(old(state), now, V6(src), w).1.Passed()
      ensures UnchangedV4()
    {
      assert src in rateV6 <==> V6(src) in state.rate;
      drop := false;
      if src in rateV6 {
        drop := CheckV6(now, src, w);
      } else if w.rate {
        InsertV6(now, src);
      }
    }

    method CheckV6(now: U64, src: nat, w: Writes) returns (drop: bool)
      requires Valid() && src in rateV6
      modifies this`blacklistV6, this`ringbuf, this`state, rateV6[src]
      ensures Valid()
      ensures V6(src) in old(state.rate) && drop == !TB.Passes(old(state.rate[V6(src)]), now)
      ensures var st := Charged(old(state), now, V6(src));
              state == if drop then AutoBlocked(st, now, V6(src), w) else st
      ensures UnchangedV4()
    {
      drop := ChargeV6(now, src);
      if drop {
        AutoBlockV6(now, src, w);
      }
    }

    method ChargeV6(now: U64, src: nat) returns (drop: bool)
      requires Valid() && src in rateV6
      modifies this`state, rateV6[src]
      ensures Valid()
      ensures V6(src) in old(state.rate) && state == Charged(old(state), now, V6(src))
      ensures drop == !TB.Passes(old(state.rate[V6(src)]), now)
      ensures UnchangedV4()
    {
      assert Has(rate, rateV6, V6(src)) && V6(src) in state.rate;
      forall k | k in rate ensures rate[k] != rateV6[src] {
        assert Get(rate, rateV6, V4(k)) == rate[k] && Get(rate, rateV6, V6(src)) == rateV6[src];
      }
      drop := rateV6[src].Check(now);
      state := Charged(state, now, V6(src));
    }

    method AutoBlockV6(now: U64, src: nat, w: Writes)
      requires Valid()
      modifies this`blacklistV6, this`ringbuf, this`state
      ensures Valid()
      ensures state == AutoBlocked(old(state), now, V6(src), w)
    {
      if w.blacklist {
        blacklistV6 := blacklistV6[src := 1];
      }
      if w.ring {
        ringbuf := ringbuf + [Alert(V6(src), 1, now)];
      }
      state := AutoBlocked(state, now, V6(src), w);
    }

    method InsertV6(now: U64, src: nat)
      requires Valid() && src !in rateV6
      modifies this`rateV6, this`state, this`Repr
      ensures Valid() && fresh(Repr - old(Repr))
      ensures state == old(state).(rate := old(state.rate)[V6(src) := TB.Fresh(now)])
      ensures UnchangedV4()
    {
      var tb := new TB.Cell(now, TB.LIMIT - 1);
      InstallV6(src, tb);
    }

    /** Puts a bucket that belongs to no key yet into the map. */
    method InstallV6(src: nat, tb: TB.Cell)
      requires Valid() && src !in rateV6 && tb !in Repr
      modifies this`rateV6, this`state, this`Repr
      ensures Valid() && Repr == old(Repr) + {tb}
      ensures state == old(state).(rate := old(state.rate)[V6(src) := tb.Value()])
    {
      DistinctV6(rate, rateV6, src, tb);
      AddedV6(rate, rateV6, src, tb);
      ghost var rate4, rate6 := rate, rateV6;
      rateV6 := rateV6[src := tb];
      Repr := Repr + {tb};
      state := state.(rate := state.rate[V6(src) := tb.Value()]);
      forall a | Has(rate, rateV6, a)
        ensures Get(rate, rateV6, a) in Repr && a in state.rate && state.rate[a] == Get(rate, rateV6, a).Value()
      {
        assert a != V6(src) ==> Has(rate4, rate6, a) && Get(rate, rateV6, a) == Get(rate4, rate6, a);
      }
    }

    // ----- Access from userspace, through the bpf(2) system call -------------------------

    /** Inserts a blacklist entry, if the map has room for it. */
    method SetBlacklist(ip: Addr, room: bool) returns (ok: bool)
      requires Valid()
      modifies this`blacklist, this`blacklistV6, this`state
      ensures Valid()
      ensures ok == room && state == if ok then old(state).(black := old(state.black) + {ip}) else old(state)
    {
      ok := room;
      if ok {
        match ip {
          case V4(k) => blacklist := blacklist[k := 1];
          case V6(k) => blacklistV6 := blacklistV6[k := 1];
        }
        state := state.(black := state.black + {ip});
      }
    }

    /** Deletes a blacklist entry; fails for one that is absent, and when the system call does. */
    method DelBlacklist(ip: Addr, works: bool) returns (ok: bool)
      requires Valid()
      modifies this`blacklist, this`blacklistV6, this`state
      ensures Valid()
      ensures ok == (works && ip in old(state.black))
      ensures state == if ok then old(state).(black := old(state.black) - {ip}) else old(state)
    {
      ok := works && if ip.V4? then ip.v4 in blacklist else ip.v6 in blacklistV6;
      if ok {
        match ip {
          case V4(k) => blacklist := blacklist - {k};
          case V6(k) => blacklistV6 := blacklistV6 - {k};
        }
        state := state.(black := state.black - {ip});
      }
    }

    /** The keys of one family's blacklist at this moment. */
    method BlacklistKeys(v6: bool) returns (keys: set<Addr>)
      requires Valid()
      ensures keys == Family(state.black, v6)
    {
      keys := if v6 then set k | k in blacklistV6 :: V6(k) else set k | k in blacklist :: V4(k);
    }

    /** The keys of one family's allowlist, or nothing if the dump fails. */
    method DumpAllowlist(v6: bool, works: bool) returns (found: Option<set<Addr>>)
      requires Valid()
      ensures found == if works then Some(Family(state.allow, v6)) else None
    {
      found := if !works then None
               else if v6 then Some(set k | k in allowlistV6 :: V6(k))
               else Some(set k | k in allowlist :: V4(k));
      assert works ==> found.value == Family(state.allow, v6);
    }
  }
}
