/**
 The life of a block, as a transition system in small steps: the brain process, its
 checkpoint file, and the filter whose maps it shares. Packets and other kernel events may
 come between any two steps, and the process may crash between any two of them.
 */
module Lifecycle {
  import opened Words
  import opened Pipeline

  /** Command-line settings; times are in nanoseconds of the monotonic clock. */
  datatype Config = Config(cooldown: int, refresh: int, v6: bool)

  type Deadlines = map<Addr, int>

  /** The checkpoint file: absent, cut off while being rewritten, or whole. */
  datatype Disk = NoFile | Torn | Saved(blocks: Deadlines)

  function Load(d: Disk): Deadlines {
    if d.Saved? then d.blocks else map[]
  }

  /** Where the process is. A `final` save is the one after the deletions. */
  datatype Phase =
    | Down
    | Restoring(todo: set<Addr>)
    | Idle
    | Refreshing
    | Dumping4
    | Dumping6
    | Tracking(todo: set<Addr>)
    | Saving(todo: set<Addr>, final: bool)
    | Writing(todo: set<Addr>, final: bool)
    | Deleting(todo: set<Addr>)
    | Popping(addr: Addr, todo: set<Addr>)
    | PublishingSet
    | PublishingCount

  datatype Metrics = Metrics(blockEvents: nat, unblockEvents: nat, blockedSet: set<Addr>, blockedCount: nat)

  /** Bookkeeping the process does not keep: what the current or latest tick started from and met. */
  datatype History = History(
    loaded: nat,
    ticks: nat,
    base: Deadlines,
    seen: set<Addr>,
    dump: set<Addr>,
    complete: bool,
    released: set<Addr>,
    stuck: set<Addr>,
    failures: nat)

  const NO_HISTORY := History(0, 0, map[], {}, {}, false, {}, {}, 0)

  datatype Sys = Sys(
    kern: State,
    clock: U64,
    disk: Disk,
    phase: Phase,
    blocked: Deadlines,
    cache: set<Addr>,
    cacheTime: int,
    now: int,
    metrics: Metrics,
    hist: History)

  datatype Act =
    | Kernel(event: Event)
    | Start
    | Reapply(addr: Addr, ok: bool)
    | Ready
    | Sample(time: U64)
    | Refresh(ok4: bool, ok6: bool)
    | Dump4(found: Option<set<Addr>>)
    | Dump6(found: Option<set<Addr>>)
    | Track(addr: Addr)
    | Expire
    | Open(ok: bool)
    | Write(ok: bool)
    | Delete(addr: Addr, ok: bool)
    | Pop
    | Deleted
    | PublishSet
    | PublishCount
    | Crash

  /** The brain holds a map for this address's family. */
  predicate Reachable(cfg: Config, a: Addr) {
    a.V4? || cfg.v6
  }

  function Expired(m: Deadlines, now: int): set<Addr> {
    set a | a in m && m[a] <= now
  }

  /** A walk over a map that only grows finds all that was there before it and nothing that is not there after it. */
  predicate WalkResult(s: Sys, v6: bool, found: set<Addr>) {
    Family(s.hist.seen, v6) <= found <= Family(s.kern.black, v6)
  }

  /** Only the brain deletes blacklist entries; everything else may happen to the kernel's maps. */
  predicate Can(cfg: Config, s: Sys, a: Act) {
    match a
    case Kernel(e) => s.clock <= e.now && !e.act.Unblock?
    case Start => s.phase.Down?
    case Reapply(x, _) => s.phase.Restoring? && x in s.phase.todo
    case Ready => s.phase == Restoring({})
    case Sample(t) => s.phase.Idle? && s.clock <= t
    case Refresh(_, _) => s.phase.Refreshing?
    case Dump4(found) => s.phase.Dumping4? && (found.Some? ==> WalkResult(s, false, found.value))
    case Dump6(found) => s.phase.Dumping6? && (found.Some? ==> cfg.v6 && WalkResult(s, true, found.value))
    case Track(x) => s.phase.Tracking? && x in s.phase.todo
    case Expire => s.phase == Tracking({})
    case Open(_) => s.phase.Saving?
    case Write(_) => s.phase.Writing?
    case Delete(x, ok) =>
      s.phase.Deleting? && x in s.phase.todo && (ok && Reachable(cfg, x) ==> x in s.kern.black) && (!Reachable(cfg, x) ==> ok)
    case Pop => s.phase.Popping?
    case Deleted => s.phase == Deleting({})
    case PublishSet => s.phase.PublishingSet?
    case PublishCount => s.phase.PublishingCount?
    case Crash => !s.phase.Down?
  }

  /** What an action does to the kernel's maps, as an event of the filter's own. */
  function KernelEvent(cfg: Config, s: Sys, a: Act): Option<Event> {
    match a
    case Kernel(e) => Some(e)
    case Reapply(x, ok) => if ok && Reachable(cfg, x) then Some(At(s.clock, Block(x))) else None
    case Delete(x, ok) => if ok && Reachable(cfg, x) then Some(At(s.clock, Unblock(x))) else None
    case _ => None
  }

  function StartUp(s: Sys): Sys {
    var blocks := Load(s.disk);
    s.(phase := Restoring(blocks.Keys), blocked := blocks, cache := {}, cacheTime := 0,
       metrics := Metrics(0, 0, {}, 0), hist := NO_HISTORY.(loaded := |blocks|))
  }

  function Refreshed(cfg: Config, s: Sys, ok4: bool, ok6: bool): Sys {
    var due := s.now - s.cacheTime >= cfg.refresh;
    var got4 := due && ok4;
    var got6 := got4 && cfg.v6 && ok6;
    s.(phase := Dumping4,
       cache := (if got4 then Family(s.kern.allow, false) else Family(s.cache, false))
              + (if got6 then Family(s.kern.allow, true) else Family(s.cache, true)),
       cacheTime := if got6 || (got4 && !cfg.v6) then s.now else s.cacheTime)
  }

  function Tracked(cfg: Config, s: Sys, x: Addr): Sys
    requires s.phase.Tracking?
  {
    var todo := s.phase.todo - {x};
    if x !in s.blocked && x !in s.cache then
      s.(phase := Saving(todo, false), blocked := s.blocked[x := s.now + cfg.cooldown],
         metrics := s.metrics.(blockEvents := s.metrics.blockEvents + 1))
    else s.(phase := Tracking(todo))
  }

  function AfterSave(todo: set<Addr>, final: bool): Phase {
    if final then PublishingSet else Tracking(todo)
  }

  /** The brain's half of an action. */
  function Brain(cfg: Config, s: Sys, a: Act): Sys
    requires Can(cfg, s, a)
  {
    match a
    case Kernel(e) => s.(clock := e.now)
    case Start => StartUp(s)
    case Reapply(x, _) => s.(phase := Restoring(s.phase.todo - {x}))
    case Ready => s.(phase := Idle)
    case Sample(t) =>
      s.(phase := Refreshing, clock := t, now := t,
         hist := s.hist.(base := s.blocked, seen := s.kern.black, dump := {}, complete := false, released := {}, stuck := {}))
    case Refresh(ok4, ok6) => Refreshed(cfg, s, ok4, ok6)
    case Dump4(None) => s.(phase := Tracking({}))
    case Dump4(Some(found)) => s.(phase := Dumping6, hist := s.hist.(dump := found))
    case Dump6(None) => s.(phase := Tracking(s.hist.dump), hist := s.hist.(complete := !cfg.v6))
    case Dump6(Some(found)) =>
      s.(phase := Tracking(s.hist.dump + found), hist := s.hist.(dump := s.hist.dump + found, complete := true))
    case Track(x) => Tracked(cfg, s, x)
    case Expire =>
      var expired := Expired(s.blocked, s.now);
      s.(phase := if expired == {} then PublishingSet else Deleting(expired))
    case Open(ok) =>
      if ok then s.(disk := Torn, phase := Writing(s.phase.todo, s.phase.final))
      else s.(phase := AfterSave(s.phase.todo, s.phase.final))
    case Write(ok) =>
      s.(disk := if ok then Saved(s.blocked) else Torn, phase := AfterSave(s.phase.todo, s.phase.final))
    case Delete(x, ok) =>
      s.(phase := Popping(x, s.phase.todo - {x}),
         metrics := if ok then s.metrics.(unblockEvents := s.metrics.unblockEvents + 1) else s.metrics,
         hist := if ok then s.hist.(released := s.hist.released + {x})
                 else s.hist.(stuck := s.hist.stuck + {x}, failures := s.hist.failures + 1))
    case Pop => s.(phase := Deleting(s.phase.todo), blocked := s.blocked - {s.phase.addr})
    case Deleted => s.(phase := Saving({}, true))
    case PublishSet => s.(phase := PublishingCount, metrics := s.metrics.(blockedSet := s.blocked.Keys))
    case PublishCount =>
      s.(phase := Idle, metrics := s.metrics.(blockedCount := |s.blocked|), hist := s.hist.(ticks := s.hist.ticks + 1))
    case Crash =>
      s.(phase := Down, blocked := map[], cache := {}, cacheTime := 0, metrics := Metrics(0, 0, {}, 0), hist := NO_HISTORY)
  }

  function Do(cfg: Config, s: Sys, a: Act): Sys
    requires Can(cfg, s, a)
  {
    var e := KernelEvent(cfg, s, a);
    Brain(cfg, s, a).(kern := if e.Some? then Step(s.kern, e.value) else s.kern)
  }

  predicate Legal(cfg: Config, s: Sys, acts: seq<Act>)
    decreases |acts|
  {
    acts == [] || (Can(cfg, s, acts[0]) && Legal(cfg, Do(cfg, s, acts[0]), acts[1..]))
  }

  function Exec(cfg: Config, s: Sys, acts: seq<Act>): Sys
    requires Legal(cfg, s, acts)
    decreases |acts|
  {
    if acts == [] then s else Exec(cfg, Do(cfg, s, acts[0]), acts[1..])
  }

  lemma {:induction false} ExecAppend(cfg: Config, s: Sys, acts: seq<Act>, more: seq<Act>)
    requires Legal(cfg, s, acts) && Legal(cfg, Exec(cfg, s, acts), more)
    ensures Legal(cfg, s, acts + more) && Exec(cfg, s, acts + more) == Exec(cfg, Exec(cfg, s, acts), more)
    decreases |acts|
  {
    if acts == [] {
      assert acts + more == more;
    } else {
      assert (acts + more)[1..] == acts[1..] + more;
      ExecAppend(cfg, Do(cfg, s, acts[0]), acts[1..], more);
    }
  }

  /** A run written out: the states it goes through and the action between each two. */
  ghost predicate Trace(cfg: Config, states: seq<Sys>, acts: seq<Act>) {
    && |states| == |acts| + 1
    && forall i {:trigger acts[i]} :: 0 <= i < |acts| ==>
         Can(cfg, states[i], acts[i]) && states[i + 1] == Do(cfg, states[i], acts[i])
  }

  lemma {:induction false} TraceIsRun(cfg: Config, states: seq<Sys>, acts: seq<Act>)
    requires Trace(cfg, states, acts)
    ensures Legal(cfg, states[0], acts) && Exec(cfg, states[0], acts) == states[|acts|]
    decreases |acts|
  {
    if acts != [] {
      assert acts[0] == acts[0];
      forall i | 0 <= i < |acts[1..]|
        ensures Can(cfg, states[1..][i], acts[1..][i]) && states[1..][i + 1] == Do(cfg, states[1..][i], acts[1..][i])
      {
        assert acts[1..][i] == acts[i + 1];
      }
      TraceIsRun(cfg, states[1..], acts[1..]);
    }
  }

  // ----- The atomic tick -----------------------------------------------------------------

  /** Old deadlines kept; everything found and neither tracked nor allow-cached given the new one. */
  function Merge(base: Deadlines, found: set<Addr>, cache: set<Addr>, deadline: int): Deadlines {
    map a | a in base.Keys + (found - cache) :: if a in base then base[a] else deadline
  }

  /** The blocks tracked after a tick that started at `now`. */
  function TickResult(base: Deadlines, found: set<Addr>, cache: set<Addr>, now: int, cooldown: int): Deadlines {
    var merged := Merge(base, found, cache, now + cooldown);
    merged - Expired(merged, now)
  }
}
