/**
 The brain process: its restart and its polling loop, over the filter's real maps, with
 packets arriving between its steps. Its execution is proved to be a run of the Lifecycle
 transition system, so everything shown of all runs holds of it.
 */
module Brain {
  import opened Words
  import opened Pipeline
  import opened Lifecycle
  import opened BlockLifetime
  import Filter

  lemma StartEffect(cfg: Config, s: Sys)
    requires s.phase.Down?
    ensures Do(cfg, s, Start) == StartUp(s)
    ensures Family(StartUp(s).cache, false) == {} && Family(StartUp(s).cache, true) == {}
  {
  }

  lemma DeleteEffect(cfg: Config, s: Sys, ip: Addr, ok: bool)
    requires Can(cfg, s, Delete(ip, ok))
    ensures var s' := Do(cfg, s, Delete(ip, ok));
            && s'.kern == (if ok && Reachable(cfg, ip) then s.kern.(black := s.kern.black - {ip}) else s.kern)
            && s'.metrics == (if ok then s.metrics.(unblockEvents := s.metrics.unblockEvents + 1) else s.metrics)
            && s' == s.(kern := s'.kern, metrics := s'.metrics, hist := s'.hist, phase := s'.phase)
  {
  }

  /** Between the end of the detection and the publication a tick takes down what is due. */
  lemma ExpiredAreGone(cfg: Config, s: Sys, s': Sys)
    requires s.phase == Tracking({}) && TickInv(cfg, s) && s'.phase == PublishingSet && TickInv(cfg, s')
    requires s'.now == s.now && s'.hist.base == s.hist.base && s'.hist.dump == s.hist.dump && s'.cache == s.cache
    ensures s'.blocked == s.blocked - Expired(s.blocked, s.now)
  {
    assert s.hist.dump - {} == s.hist.dump;
  }

  lemma PacketBlacks(st: State, now: U64, frame: Frame, writes: Writes)
    ensures st.black <= Receive(st, now, frame, writes).0.black
  {
    forall x | x in st.black ensures x in Receive(st, now, frame, writes).0.black {
      PacketKeepsBlack(st, now, frame, writes, x);
    }
  }

  /** The file after a save that may be unable to open it, or to finish. */
  function AfterWriting(disk: Disk, canOpen: bool, written: bool, blocked: Deadlines): Disk {
    if !canOpen then disk else if written then Saved(blocked) else Torn
  }

  class Process {
    const cfg: Config
    const kernel: Filter.Maps

    /** The machine's monotonic clock, and the checkpoint file. */
    var clock: U64
    var disk: Disk

    var blockedUntil: Deadlines
    var allowlistCache: set<Addr>
    var allowlistV6Cache: set<Addr>
    var allowlistTs: int
    var metrics: Metrics

    /** The state of the transition system, and the run that led to it. */
    ghost var sys: Sys
    ghost var states: seq<Sys>
    ghost var log: seq<Act>

    ghost predicate Valid()
      reads this, kernel, kernel.Repr
    {
      && kernel.Valid() && this !in kernel.Repr
      && sys.kern == kernel.state && sys.clock == clock && sys.disk == disk
      && sys.blocked == blockedUntil && sys.cacheTime == allowlistTs && sys.metrics == metrics
      && Family(sys.cache, false) == allowlistCache && Family(sys.cache, true) == allowlistV6Cache
      && Trace(cfg, states, log) && states[|log|] == sys && states[0].phase.Down?
    }

    /** The process's whole history is a run of the transition system. */
    lemma HistoryIsRun()
      requires Valid()
      ensures Legal(cfg, states[0], log) && Exec(cfg, states[0], log) == sys
    {
      TraceIsRun(cfg, states, log);
    }

    lemma InvariantHolds()
      requires Valid()
      ensures TickInv(cfg, sys)
    {
      HistoryIsRun();
      TickInvKept(cfg, states[0], log);
    }

    /** What the dumps and the allowlists gave is still the same. */
    twostate predicate SameFindings()
      reads this
    {
      sys.hist.dump == old(sys.hist.dump) && sys.cache == old(sys.cache)
    }

    /** The log has grown, to the given phase, within one process and one tick. */
    twostate predicate Advanced(phase: Phase)
      reads this
    {
      && old(log) <= log && sys.phase == phase
      && sys.now == old(sys.now) && sys.hist.base == old(sys.hist.base) && sys.hist.ticks == old(sys.hist.ticks)
    }

    constructor (cfg: Config, kernel: Filter.Maps, disk: Disk, clock: U64)
      requires kernel.Valid()
      ensures Valid() && this.cfg == cfg && this.kernel == kernel && this.disk == disk
      ensures sys.phase.Down? && log == []
    {
      this.cfg, this.kernel, this.clock, this.disk := cfg, kernel, clock, disk;
      blockedUntil, allowlistCache, allowlistV6Cache, allowlistTs := map[], {}, {}, 0;
      metrics := Metrics(0, 0, {}, 0);
      var start := Sys(kernel.state, clock, disk, Down, map[], {}, 0, 0, Metrics(0, 0, {}, 0), NO_HISTORY);
      sys, states, log := start, [start], [];
      new;
      assert Family(sys.cache, false) == {} && Family(sys.cache, true) == {};
    }

    /** Records that the real step just taken is the action a of the transition system. */
    ghost method Take(a: Act)
      requires Trace(cfg, states, log) && states[|log|] == sys && Can(cfg, sys, a)
      modifies this`sys, this`states, this`log
      ensures Trace(cfg, states, log) && states[|log|] == sys && states[0] == old(states[0])
      ensures sys == Do(cfg, old(sys), a) && log == old(log) + [a]
    {
      var next := Do(cfg, sys, a);
      forall i | 0 <= i < |log + [a]|
        ensures Can(cfg, (states + [next])[i], (log + [a])[i])
        ensures (states + [next])[i + 1] == Do(cfg, (states + [next])[i], (log + [a])[i])
      {
        assert i < |log| ==> (log + [a])[i] == log[i];
      }
      sys, states, log := next, states + [next], log + [a];
    }

    method Packet(now: U64, frame: Frame, writes: Writes)
      requires Valid() && clock <= now
      modifies this`clock, this`sys, this`states, this`log, kernel.Repr
      ensures Valid() && fresh(kernel.Repr - old(kernel.Repr))
      ensures Advanced(old(sys.phase)) && sys.hist == old(sys.hist) && sys.cache == old(sys.cache)
      ensures log == old(log) + [Kernel(At(now, Pipeline.Packet(frame, writes)))] && old(sys.kern.black) <= sys.kern.black
    {
      PacketBlacks(sys.kern, now, frame, writes);
      var verdict := kernel.FluxguardFilter(now, frame, writes);
      clock := now;
      Take(Kernel(At(now, Pipeline.Packet(frame, writes))));
    }

    /** Any number of packets, at any later times. */
    method Preempt()
      requires Valid()
      modifies this`clock, this`sys, this`states, this`log, kernel.Repr
      ensures Valid() && fresh(kernel.Repr - old(kernel.Repr))
      ensures Advanced(old(sys.phase)) && sys.hist == old(sys.hist) && sys.cache == old(sys.cache)
      ensures old(sys.kern.black) <= sys.kern.black
    {
      var n: nat := *;
      while n > 0
        invariant Valid() && fresh(kernel.Repr - old(kernel.Repr))
        invariant Advanced(old(sys.phase)) && sys.hist == old(sys.hist) && sys.cache == old(sys.cache)
        invariant old(sys.kern.black) <= sys.kern.black
      {
        var now: U64, frame: Frame, writes: Writes := *, *, *;
        if clock <= now {
          Packet(now, frame, writes);
        }
        n := n - 1;
      }
    }

    // ----- Start-up ------------------------------------------------------------------------

    /** Loads the checkpoint and puts its blocks back into the kernel. */
    method Restore()
      requires Valid() && sys.phase.Down?
      modifies this, kernel.Repr
      ensures Valid() && fresh(kernel.Repr - old(kernel.Repr))
      ensures old(log) <= log && sys.phase.Idle? && sys.hist.ticks == 0
      ensures blockedUntil == Load(old(disk)) && disk == old(disk)
    {
      Initialize();
      ReapplyAll();
    }

    method Initialize()
      requires Valid() && sys.phase.Down?
      modifies this`blockedUntil, this`allowlistCache, this`allowlistV6Cache, this`allowlistTs, this`metrics
      modifies this`sys, this`states, this`log
      ensures Valid()
      ensures old(log) <= log && sys.phase == Restoring(blockedUntil.Keys) && sys.hist.ticks == 0
      ensures blockedUntil == Load(disk)
    {
      StartEffect(cfg, sys);
      Reset();
      Take(Start);
    }

    method Reset()
      modifies this`blockedUntil, this`allowlistCache, this`allowlistV6Cache, this`allowlistTs, this`metrics
      ensures blockedUntil == Load(disk) && allowlistCache == allowlistV6Cache == {}
      ensures allowlistTs == 0 && metrics == Metrics(0, 0, {}, 0)
    {
      blockedUntil := Load(disk);
      allowlistCache, allowlistV6Cache, allowlistTs, metrics := {}, {}, 0, Metrics(0, 0, {}, 0);
    }

    method ReapplyAll()
      requires Valid() && sys.phase == Restoring(blockedUntil.Keys)
      modifies this`clock, this`sys, this`states, this`log, kernel.Repr
      ensures Valid() && fresh(kernel.Repr - old(kernel.Repr))
      ensures Advanced(Idle)
    {
      ReapplyEach();
      Take(Ready);
    }

    method ReapplyEach()
      requires Valid() && sys.phase == Restoring(blockedUntil.Keys)
      modifies this`clock, this`sys, this`states, this`log, kernel.Repr
      ensures Valid() && fresh(kernel.Repr - old(kernel.Repr))
      ensures Advanced(Restoring({}))
    {
      var todo := blockedUntil.Keys;
      while todo != {}
        invariant Valid() && fresh(kernel.Repr - old(kernel.Repr))
        invariant Advanced(Restoring(todo))
        decreases todo
      {
        var ip :| ip in todo;
        ReapplyOne(ip);
        todo := todo - {ip};
      }
    }

    method ReapplyOne(ip: Addr)
      requires Valid() && sys.phase.Restoring? && ip in sys.phase.todo
      modifies this`clock, this`sys, this`states, this`log, kernel.Repr
      ensures Valid() && fresh(kernel.Repr - old(kernel.Repr))
      ensures Advanced(Restoring(old(sys.phase.todo) - {ip}))
    {
      var room: bool := *;
      Reapply(ip, room);
      Preempt();
    }

    method Reapply(ip: Addr, room: bool)
      requires Valid() && sys.phase.Restoring? && ip in sys.phase.todo
      modifies this`sys, this`states, this`log, kernel`blacklist, kernel`blacklistV6, kernel`state
      ensures Valid() && Advanced(Restoring(old(sys.phase.todo) - {ip}))
      ensures sys.kern.black == if room && (ip.V4? || cfg.v6) then old(sys.kern.black) + {ip} else old(sys.kern.black)
    {
      var ok := true;
      if Reachable(cfg, ip) {
        ok := kernel.SetBlacklist(ip, room);
      }
      assert Do(cfg, sys, Lifecycle.Reapply(ip, ok)) == sys.(kern := kernel.state, phase := Restoring(sys.phase.todo - {ip}));
      Take(Lifecycle.Reapply(ip, ok));
    }

    // ----- The polling loop ----------------------------------------------------------------

    /** Restores the blocks and ticks until told to stop. */
    method Monitor()
      requires Valid() && sys.phase.Down?
      modifies this, kernel.Repr
      ensures Valid() && fresh(kernel.Repr - old(kernel.Repr))
      ensures old(log) <= log && sys.phase.Idle?
    {
      Restore();
      Poll();
    }

    method Poll()
      requires Valid() && sys.phase.Idle?
      modifies this, kernel.Repr
      ensures Valid() && fresh(kernel.Repr - old(kernel.Repr))
      ensures old(log) <= log && sys.phase.Idle?
    {
      var n: nat := *;
      while n > 0
        invariant Valid() && fresh(kernel.Repr - old(kernel.Repr))
        invariant old(log) <= log && sys.phase.Idle?
      {
        Tick();
        n := n - 1;
      }
    }

    /** One tick, packets arriving throughout. Its effect on the table is that of one atomic step. */
    method Tick()
      requires Valid() && sys.phase.Idle?
      modifies this, kernel.Repr
      ensures Valid() && fresh(kernel.Repr - old(kernel.Repr))
      ensures old(log) <= log && sys.phase.Idle? && sys.hist.ticks == old(sys.hist.ticks) + 1
      ensures blockedUntil == TickResult(old(blockedUntil), sys.hist.dump, sys.cache, sys.now, cfg.cooldown)
      ensures metrics.blockedSet == blockedUntil.Keys && metrics.blockedCount == |blockedUntil|
    {
      var now := Observe();
      Expire(now);
      TickFinished();
    }

    lemma TickFinished()
      requires Valid() && sys.phase.Idle? && sys.hist.ticks > 0
      ensures blockedUntil == TickResult(sys.hist.base, sys.hist.dump, sys.cache, sys.now, cfg.cooldown)
    {
      InvariantHolds();
    }

    method Observe() returns (now: int)
      requires Valid() && sys.phase.Idle?
      modifies this, kernel.Repr
      ensures Valid() && fresh(kernel.Repr - old(kernel.Repr))
      ensures old(log) <= log && sys.phase == Tracking({}) && sys.hist.ticks == old(sys.hist.ticks)
      ensures now == sys.now && sys.hist.base == old(blockedUntil)
    {
      now := Begin();
      Detect(now);
    }

    /** The time, and the allowlists as of about then. */
    method Begin() returns (now: int)
      requires Valid() && sys.phase.Idle?
      modifies this, kernel.Repr
      ensures Valid() && fresh(kernel.Repr - old(kernel.Repr))
      ensures old(log) <= log && sys.phase.Dumping4? && sys.hist.ticks == old(sys.hist.ticks)
      ensures now == sys.now && sys.hist.base == old(blockedUntil)
    {
      now := Monotonic();
      RefreshAllowlists(now);
    }

    /** What is blocked, and since when. */
    method Detect(now: int)
      requires Valid() && sys.phase.Dumping4? && now == sys.now
      modifies this, kernel.Repr
      ensures Valid() && fresh(kernel.Repr - old(kernel.Repr))
      ensures Advanced(Tracking({}))
    {
      Preempt();
      var found := DumpBlacklists();
      TrackNew(now, found);
    }

    /** What has expired, and the figures for the exporter. */
    method Expire(now: int)
      requires Valid() && sys.phase == Tracking({}) && now == sys.now
      modifies this, kernel.Repr
      ensures Valid() && fresh(kernel.Repr - old(kernel.Repr))
      ensures old(log) <= log && sys.phase.Idle? && sys.hist.ticks == old(sys.hist.ticks) + 1
      ensures sys.now == old(sys.now) && sys.hist.base == old(sys.hist.base)
      ensures metrics.blockedSet == blockedUntil.Keys && metrics.blockedCount == |blockedUntil|
    {
      var canOpen: bool, written: bool := *, *;
      ExpireBlocks(now, canOpen, written);
      Preempt();
      Publish();
    }

    method Monotonic() returns (now: U64)
      requires Valid() && sys.phase.Idle?
      modifies this`clock, this`sys, this`states, this`log, kernel.Repr
      ensures Valid() && fresh(kernel.Repr - old(kernel.Repr))
      ensures old(log) <= log && sys.phase.Refreshing? && now == sys.now && sys.hist.ticks == old(sys.hist.ticks)
      ensures sys.hist.base == blockedUntil
    {
      Preempt();
      now := *;
      if now < clock {
        now := clock;
      }
      clock := now;
      Take(Sample(now));
    }

    method RefreshAllowlists(now: int)
      requires Valid() && sys.phase.Refreshing? && now == sys.now
      modifies this`allowlistCache, this`allowlistV6Cache, this`allowlistTs, this`sys, this`states, this`log
      ensures Valid() && Advanced(Dumping4)
    {
      var ok4: bool, ok6: bool := *, *;
      ReadAllowlists(now, ok4, ok6);
      RefreshEffect(ok4, ok6);
      Take(Refresh(ok4, ok6));
    }

    /** Both caches, if they are due and their dumps work; the time stamp moves only when every dump worked. */
    method ReadAllowlists(now: int, ok4: bool, ok6: bool)
      requires kernel.Valid()
      modifies this`allowlistCache, this`allowlistV6Cache, this`allowlistTs
      ensures var got4 := now - old(allowlistTs) >= cfg.refresh && ok4;
              var got6 := got4 && cfg.v6 && ok6;
              && allowlistCache == (if got4 then Family(kernel.state.allow, false) else old(allowlistCache))
              && allowlistV6Cache == (if got6 then Family(kernel.state.allow, true) else old(allowlistV6Cache))
              && allowlistTs == (if got6 || (got4 && !cfg.v6) then now else old(allowlistTs))
    {
      if now - allowlistTs >= cfg.refresh {
        var found4 := kernel.DumpAllowlist(false, ok4);
        if found4.Some? {
          allowlistCache := found4.value;
          if cfg.v6 {
            var found6 := kernel.DumpAllowlist(true, ok6);
            if found6.Some? {
              allowlistV6Cache, allowlistTs := found6.value, now;
            }
          } else {
            allowlistTs := now;
          }
        }
      }
    }

    lemma RefreshEffect(ok4: bool, ok6: bool)
      requires sys.phase.Refreshing?
      ensures var s := Do(cfg, sys, Refresh(ok4, ok6));
              var due := sys.now - sys.cacheTime >= cfg.refresh;
              && Family(s.cache, false) == (if due && ok4 then Family(sys.kern.allow, false) else Family(sys.cache, false))
              && Family(s.cache, true) == (if due && ok4 && cfg.v6 && ok6 then Family(sys.kern.allow, true) else Family(sys.cache, true))
    {
    }

    /** Both blacklists; a failed dump, or a failed read between the two, cuts the list short. */
    method DumpBlacklists() returns (found: set<Addr>)
      requires Valid() && sys.phase.Dumping4?
      modifies this`clock, this`sys, this`states, this`log, kernel.Repr
      ensures Valid() && fresh(kernel.Repr - old(kernel.Repr))
      ensures Advanced(Tracking(found)) && sys.cache == old(sys.cache)
    {
      var works4: bool, meterRead: bool, works6: bool := *, *, *;
      var found4 := DumpV4(works4);
      if found4.None? {
        return {};
      }
      Preempt();
      found := DumpV6(found4.value, meterRead, works6);
    }

    /** The walk may find every key that was there before it and whatever was put in meanwhile; or it fails at its start. */
    method DumpV4(works: bool) returns (found: Option<set<Addr>>)
      requires Valid() && sys.phase.Dumping4?
      modifies this`clock, this`sys, this`states, this`log, kernel.Repr
      ensures Valid() && fresh(kernel.Repr - old(kernel.Repr)) && sys.cache == old(sys.cache)
      ensures Advanced(if works then Dumping6 else Tracking({})) && found.Some? == works
      ensures works ==> sys.hist.dump == found.value && Family(old(sys.kern.black), false) <= found.value <= Family(sys.kern.black, false)
    {
      found := None;
      if works {
        var keys := WalkBlacklist(false);
        found := Some(keys);
      }
      Take(Dump4(found));
    }

    method DumpV6(found4: set<Addr>, meterRead: bool, works: bool) returns (found: set<Addr>)
      requires Valid() && sys.phase.Dumping6? && sys.hist.dump == found4
      modifies this`clock, this`sys, this`states, this`log, kernel.Repr
      ensures Valid() && fresh(kernel.Repr - old(kernel.Repr)) && sys.cache == old(sys.cache)
      ensures Advanced(Tracking(found))
      ensures sys.hist.complete <==> !cfg.v6 || (meterRead && works)
      ensures if meterRead && cfg.v6 && works
              then found4 + Family(old(sys.kern.black), true) <= found <= found4 + Family(sys.kern.black, true)
              else found == found4
    {
      found := found4;
      if meterRead && cfg.v6 && works {
        var found6 := WalkBlacklist(true);
        Take(Dump6(Some(found6)));
        found := found4 + found6;
      } else {
        Take(Dump6(None));
      }
    }

    /** Key by key, packets arriving after each; some of the keys put in meanwhile are met as well. */
    method WalkBlacklist(v6: bool) returns (found: set<Addr>)
      requires Valid() && sys.phase == if v6 then Dumping6 else Dumping4
      modifies this`clock, this`sys, this`states, this`log, kernel.Repr
      ensures Valid() && fresh(kernel.Repr - old(kernel.Repr))
      ensures Advanced(old(sys.phase)) && sys.hist == old(sys.hist) && sys.cache == old(sys.cache)
      ensures Family(old(sys.kern.black), v6) <= found <= Family(sys.kern.black, v6) && WalkResult(sys, v6, found)
    {
      InvariantHolds();
      found := {};
      var ahead := kernel.BlacklistKeys(v6);
      var news: nat := *;
      while ahead != {}
        invariant Valid() && fresh(kernel.Repr - old(kernel.Repr))
        invariant Advanced(old(sys.phase)) && sys.hist == old(sys.hist) && sys.cache == old(sys.cache)
        invariant Family(old(sys.kern.black), v6) <= found + ahead <= Family(sys.kern.black, v6)
        decreases news, ahead
      {
        var ip :| ip in ahead;
        found, ahead := found + {ip}, ahead - {ip};
        ahead, news := MeetNew(v6, found, ahead, news);
      }
    }

    /** Packets arrive, and some keys that are new by now will be met further on. */
    method MeetNew(v6: bool, found: set<Addr>, ahead: set<Addr>, news: nat) returns (ahead': set<Addr>, news': nat)
      requires Valid() && found + ahead <= Family(sys.kern.black, v6)
      modifies this`clock, this`sys, this`states, this`log, kernel.Repr
      ensures Valid() && fresh(kernel.Repr - old(kernel.Repr))
      ensures Advanced(old(sys.phase)) && sys.hist == old(sys.hist) && sys.cache == old(sys.cache)
      ensures ahead <= ahead' && found + ahead' <= Family(sys.kern.black, v6)
      ensures news' < news || (news' == news && ahead' == ahead)
    {
      Preempt();
      ahead', news' := ahead, news;
      if news > 0 {
        var keys := kernel.BlacklistKeys(v6);
        var met: set<Addr> := *;
        ahead', news' := ahead + (keys * met - found), news - 1;
      }
    }

    method TrackNew(now: int, found: set<Addr>)
      requires Valid() && sys.phase == Tracking(found) && now == sys.now
      modifies this`clock, this`disk, this`blockedUntil, this`metrics, this`sys, this`states, this`log, kernel.Repr
      ensures Valid() && fresh(kernel.Repr - old(kernel.Repr))
      ensures Advanced(Tracking({}))
    {
      var todo := found;
      while todo != {}
        invariant Valid() && fresh(kernel.Repr - old(kernel.Repr))
        invariant Advanced(Tracking(todo))
        decreases todo
      {
        var ip :| ip in todo;
        todo := todo - {ip};
        TrackNext(now, ip);
      }
    }

    method TrackNext(now: int, ip: Addr)
      requires Valid() && sys.phase.Tracking? && ip in sys.phase.todo && now == sys.now
      modifies this`clock, this`disk, this`blockedUntil, this`metrics, this`sys, this`states, this`log, kernel.Repr
      ensures Valid() && fresh(kernel.Repr - old(kernel.Repr))
      ensures Advanced(Tracking(old(sys.phase.todo) - {ip}))
    {
      var canOpen: bool, written: bool := *, *;
      TrackOne(now, ip, canOpen, written);
      Preempt();
    }

    method TrackOne(now: int, ip: Addr, canOpen: bool, written: bool)
      requires Valid() && sys.phase.Tracking? && ip in sys.phase.todo && now == sys.now
      modifies this`disk, this`blockedUntil, this`metrics, this`sys, this`states, this`log
      ensures Valid() && Advanced(Tracking(old(sys.phase.todo) - {ip}))
      ensures if ip in old(blockedUntil) || ip in old(sys.cache)
              then blockedUntil == old(blockedUntil) && metrics == old(metrics) && disk == old(disk)
              else && blockedUntil == old(blockedUntil)[ip := now + cfg.cooldown]
                   && metrics.blockEvents == old(metrics).blockEvents + 1
                   && disk == AfterWriting(old(disk), canOpen, written, blockedUntil)
    {
      assert ip in sys.cache <==> ip in allowlistCache || ip in allowlistV6Cache by {
        assert ip in sys.cache ==> ip in Family(sys.cache, ip.V6?);
      }
      if ip !in blockedUntil && ip !in allowlistCache && ip !in allowlistV6Cache {
        StartBlock(now, ip);
        SaveCheckpoint(canOpen, written);
      } else {
        Take(Track(ip));
      }
    }

    method StartBlock(now: int, ip: Addr)
      requires Valid() && sys.phase.Tracking? && ip in sys.phase.todo && now == sys.now
      requires ip !in blockedUntil && ip !in sys.cache
      modifies this`blockedUntil, this`metrics, this`sys, this`states, this`log
      ensures Valid() && Advanced(Saving(old(sys.phase.todo) - {ip}, false))
      ensures blockedUntil == old(blockedUntil)[ip := now + cfg.cooldown]
      ensures metrics.blockEvents == old(metrics).blockEvents + 1
    {
      blockedUntil := blockedUntil[ip := now + cfg.cooldown];
      metrics := metrics.(blockEvents := metrics.blockEvents + 1);
      Take(Track(ip));
    }

    /** Rewrites the checkpoint in place; errors are swallowed, and one after the file is open leaves it cut off. */
    method SaveCheckpoint(canOpen: bool, written: bool)
      requires Valid() && sys.phase.Saving?
      modifies this`disk, this`sys, this`states, this`log
      ensures Valid() && Advanced(AfterSave(old(sys.phase.todo), old(sys.phase.final))) && SameFindings()
      ensures disk == AfterWriting(old(disk), canOpen, written, blockedUntil)
    {
      if canOpen {
        disk := Torn;
      }
      Take(Open(canOpen));
      if canOpen {
        if written {
          disk := Saved(blockedUntil);
        }
        Take(Write(written));
      }
    }

    method ExpireBlocks(now: int, canOpen: bool, written: bool)
      requires Valid() && sys.phase == Tracking({}) && now == sys.now
      modifies this`clock, this`disk, this`blockedUntil, this`metrics, this`sys, this`states, this`log, kernel.Repr
      ensures Valid() && fresh(kernel.Repr - old(kernel.Repr))
      ensures Advanced(PublishingSet)
      ensures var expired := Expired(old(blockedUntil), now);
              && blockedUntil == old(blockedUntil) - expired
              && disk == if expired == {} then old(disk) else AfterWriting(old(disk), canOpen, written, blockedUntil)
    {
      ghost var before := sys;
      InvariantHolds();
      var expired := FindExpired(now);
      if expired != {} {
        UnblockAll(expired, canOpen, written);
      }
      InvariantHolds();
      ExpiredAreGone(cfg, before, sys);
    }

    method FindExpired(now: int) returns (expired: set<Addr>)
      requires Valid() && sys.phase == Tracking({}) && now == sys.now
      modifies this`sys, this`states, this`log
      ensures Valid() && Advanced(if expired == {} then PublishingSet else Deleting(expired)) && SameFindings()
      ensures expired == Expired(blockedUntil, now)
    {
      expired := set ip | ip in blockedUntil && now >= blockedUntil[ip];
      assert expired == Expired(sys.blocked, sys.now);
      Take(Lifecycle.Expire);
    }

    method UnblockAll(expired: set<Addr>, canOpen: bool, written: bool)
      requires Valid() && sys.phase == Deleting(expired)
      modifies this`clock, this`disk, this`blockedUntil, this`metrics, this`sys, this`states, this`log, kernel.Repr
      ensures Valid() && fresh(kernel.Repr - old(kernel.Repr))
      ensures Advanced(PublishingSet) && SameFindings()
      ensures disk == AfterWriting(old(disk), canOpen, written, blockedUntil)
    {
      UnblockEach(expired);
      SaveLast(canOpen, written);
    }

    method SaveLast(canOpen: bool, written: bool)
      requires Valid() && sys.phase == Deleting({})
      modifies this`disk, this`sys, this`states, this`log
      ensures Valid() && Advanced(PublishingSet) && SameFindings()
      ensures disk == AfterWriting(old(disk), canOpen, written, blockedUntil)
    {
      Take(Deleted);
      SaveCheckpoint(canOpen, written);
    }

    method UnblockEach(expired: set<Addr>)
      requires Valid() && sys.phase == Deleting(expired)
      modifies this`clock, this`blockedUntil, this`metrics, this`sys, this`states, this`log, kernel.Repr
      ensures Valid() && fresh(kernel.Repr - old(kernel.Repr))
      ensures Advanced(Deleting({})) && SameFindings()
    {
      var todo := expired;
      while todo != {}
        invariant Valid() && fresh(kernel.Repr - old(kernel.Repr))
        invariant Advanced(Deleting(todo))
        invariant SameFindings()
        decreases todo
      {
        var ip :| ip in todo;
        todo := todo - {ip};
        UnblockOne(ip);
      }
    }

    method UnblockOne(ip: Addr)
      requires Valid() && sys.phase.Deleting? && ip in sys.phase.todo
      modifies this`clock, this`blockedUntil, this`metrics, this`sys, this`states, this`log, kernel.Repr
      ensures Valid() && fresh(kernel.Repr - old(kernel.Repr))
      ensures Advanced(Deleting(old(sys.phase.todo) - {ip})) && SameFindings()
    {
      DeleteNext(ip);
      PopNext(ip);
    }

    method DeleteNext(ip: Addr)
      requires Valid() && sys.phase.Deleting? && ip in sys.phase.todo
      modifies this`clock, this`metrics, this`sys, this`states, this`log, kernel.Repr
      ensures Valid() && fresh(kernel.Repr - old(kernel.Repr))
      ensures Advanced(Popping(ip, old(sys.phase.todo) - {ip})) && SameFindings()
    {
      Preempt();
      var works: bool := *;
      DeleteOne(ip, works);
    }

    method PopNext(ip: Addr)
      requires Valid() && sys.phase.Popping? && ip == sys.phase.addr
      modifies this`clock, this`blockedUntil, this`sys, this`states, this`log, kernel.Repr
      ensures Valid() && fresh(kernel.Repr - old(kernel.Repr))
      ensures Advanced(Deleting(old(sys.phase.todo))) && SameFindings()
    {
      Preempt();
      PopOne(ip);
    }

    method PopOne(ip: Addr)
      requires Valid() && sys.phase.Popping? && ip == sys.phase.addr
      modifies this`blockedUntil, this`sys, this`states, this`log
      ensures Valid() && Advanced(Deleting(old(sys.phase.todo))) && SameFindings()
      ensures blockedUntil == old(blockedUntil) - {ip}
    {
      blockedUntil := blockedUntil - {ip};
      Take(Pop);
    }

    method DeleteOne(ip: Addr, works: bool)
      requires Valid() && sys.phase.Deleting? && ip in sys.phase.todo
      modifies this`metrics, this`sys, this`states, this`log, kernel`blacklist, kernel`blacklistV6, kernel`state
      ensures Valid() && Advanced(Popping(ip, old(sys.phase.todo) - {ip})) && SameFindings()
      ensures var mapped := ip.V4? || cfg.v6;
              var ok := !mapped || (works && ip in old(sys.kern.black));
              && metrics.unblockEvents == old(metrics.unblockEvents) + (if ok then 1 else 0)
              && sys.kern.black == (if ok && mapped then old(sys.kern.black) - {ip} else old(sys.kern.black))
    {
      var ok := true;
      if Reachable(cfg, ip) {
        ok := kernel.DelBlacklist(ip, works);
      }
      DeleteEffect(cfg, sys, ip, ok);
      CountDelete(ip, ok);
    }

    method CountDelete(ip: Addr, ok: bool)
      requires sys.phase.Deleting? && ip in sys.phase.todo && Can(cfg, sys, Delete(ip, ok))
      requires Trace(cfg, states, log) && states[|log|] == sys && sys.metrics == metrics
      modifies this`metrics, this`sys, this`states, this`log
      ensures Trace(cfg, states, log) && states[|log|] == sys && states[0] == old(states[0]) && sys.metrics == metrics
      ensures sys == Do(cfg, old(sys), Delete(ip, ok)) && log == old(log) + [Delete(ip, ok)]
      ensures metrics.unblockEvents == old(metrics.unblockEvents) + (if ok then 1 else 0)
    {
      if ok {
        metrics := metrics.(unblockEvents := metrics.unblockEvents + 1);
      }
      DeleteEffect(cfg, sys, ip, ok);
      Take(Delete(ip, ok));
    }

    /** Set first, count second: two separate updates. */
    method Publish()
      requires Valid() && sys.phase.PublishingSet?
      modifies this`clock, this`metrics, this`sys, this`states, this`log, kernel.Repr
      ensures Valid() && fresh(kernel.Repr - old(kernel.Repr))
      ensures old(log) <= log && sys.phase.Idle? && sys.hist.ticks == old(sys.hist.ticks) + 1
      ensures sys.now == old(sys.now) && sys.hist.base == old(sys.hist.base)
      ensures metrics.blockedSet == blockedUntil.Keys && metrics.blockedCount == |blockedUntil|
    {
      UpdateBlockedSet();
      Preempt();
      UpdateSnapshot();
    }

    method UpdateBlockedSet()
      requires Valid() && sys.phase.PublishingSet?
      modifies this`metrics, this`sys, this`states, this`log
      ensures Valid() && Advanced(PublishingCount) && metrics.blockedSet == blockedUntil.Keys
    {
      metrics := metrics.(blockedSet := blockedUntil.Keys);
      Take(PublishSet);
    }

    method UpdateSnapshot()
      requires Valid() && sys.phase.PublishingCount?
      modifies this`metrics, this`sys, this`states, this`log
      ensures Valid() && old(log) <= log && sys == Do(cfg, old(sys), PublishCount)
      ensures metrics == old(metrics).(blockedCount := |blockedUntil|)
    {
      metrics := metrics.(blockedCount := |blockedUntil|);
      Take(PublishCount);
    }
  }
}
