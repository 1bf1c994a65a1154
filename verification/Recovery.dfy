/**
 What survives a crash, what the checkpoint is worth at each moment, and how the timed blocks
 of the brain and the filter's blacklist latch add up to one guarantee.
 */
module Recovery {
  import opened Words
  import opened Pipeline
  import opened Sources
  import opened Lifecycle
  import opened BlockLifetime
  import RL = RateLimits

  // ----- The checkpoint ------------------------------------------------------------------

  predicate Agree(m: Deadlines, n: Deadlines) {
    forall x :: x in m && x in n ==> m[x] == n[x]
  }

  /** The table the checkpoint is to hold; during the deletions, the table before them. */
  function Target(cfg: Config, s: Sys): Deadlines {
    if s.phase.Deleting? || s.phase.Popping? then Full(cfg, s) else s.blocked
  }

  /**
   A whole checkpoint holds the table, and between an update and its save a table that agrees
   with it. In the strict sense there is a whole checkpoint or nothing to put in one.
   */
  predicate Current(cfg: Config, s: Sys, strict: bool) {
    match s.phase
    case Down => true
    case Writing(_, _) => s.disk.Torn?
    case Saving(_, _) => Agree(Load(s.disk), s.blocked)
    case _ => s.disk.Saved? || strict ==> Load(s.disk) == Target(cfg, s)
  }

  /** Steps that touch neither the table nor the file, outside the deletions. */
  lemma CurrentQuiet(cfg: Config, s: Sys, a: Act, strict: bool)
    requires Can(cfg, s, a) && Current(cfg, s, strict)
    requires a.Ready? || a.Sample? || a.Refresh? || a.Dump4? || a.Dump6? || a.PublishSet? || a.PublishCount? || a.Reapply?
    ensures Current(cfg, Do(cfg, s, a), strict)
  {
  }

  lemma CurrentTrack(cfg: Config, s: Sys, x: Addr, strict: bool)
    requires Can(cfg, s, Track(x)) && Current(cfg, s, strict)
    ensures Current(cfg, Do(cfg, s, Track(x)), strict)
  {
  }

  lemma CurrentKernel(cfg: Config, s: Sys, e: Event, strict: bool)
    requires Can(cfg, s, Kernel(e)) && Current(cfg, s, strict)
    ensures Current(cfg, Do(cfg, s, Kernel(e)), strict)
  {
  }

  lemma CurrentRemoval(cfg: Config, s: Sys, a: Act, strict: bool)
    requires Can(cfg, s, a) && TickInv(cfg, s) && Current(cfg, s, strict)
    requires a.Expire? || a.Delete? || a.Pop? || a.Deleted?
    ensures Current(cfg, Do(cfg, s, a), strict)
  {
    if a.Expire? {
      assert s.hist.dump - {} == s.hist.dump;
    }
  }

  lemma CurrentSave(cfg: Config, s: Sys, a: Act, strict: bool)
    requires Can(cfg, s, a) && Current(cfg, s, strict) && (a == Open(true) || (a.Write? && (strict ==> a.ok)))
    ensures Current(cfg, Do(cfg, s, a), strict)
  {
  }

  lemma CurrentStep(cfg: Config, s: Sys, a: Act, strict: bool)
    requires Can(cfg, s, a) && TickInv(cfg, s) && Current(cfg, s, strict)
    requires a != Open(false) && (strict ==> a != Write(false))
    ensures Current(cfg, Do(cfg, s, a), strict)
  {
    match a
    case Kernel(e) => CurrentKernel(cfg, s, e, strict);
    case Track(x) => CurrentTrack(cfg, s, x, strict);
    case Expire | Pop | Deleted => CurrentRemoval(cfg, s, a, strict);
    case Delete(_, _) => CurrentRemoval(cfg, s, a, strict);
    case Open(_) => CurrentSave(cfg, s, a, strict);
    case Write(_) => CurrentSave(cfg, s, a, strict);
    case Start | Crash =>
    case _ => CurrentQuiet(cfg, s, a, strict);
  }

  lemma CurrentAgrees(cfg: Config, s: Sys, strict: bool)
    requires TickInv(cfg, s) && Current(cfg, s, strict)
    ensures !s.phase.Down? ==> Agree(Load(s.disk), s.blocked)
  {
  }

  /**
   As long as every save gets to open the file, a whole checkpoint never contradicts the
   table. When every save also completes, a restart at any tick boundary would restore
   exactly the table in memory.
   */
  lemma {:induction false} CheckpointAgrees(cfg: Config, s: Sys, acts: seq<Act>, strict: bool)
    requires Legal(cfg, s, acts) && TickInv(cfg, s) && Current(cfg, s, strict)
    requires Open(false) !in acts && (strict ==> Write(false) !in acts)
    ensures var e := Exec(cfg, s, acts);
            && Current(cfg, e, strict)
            && (!e.phase.Down? ==> Agree(Load(e.disk), e.blocked))
            && (strict && e.phase.Idle? ==> Load(e.disk) == e.blocked)
    decreases |acts|
  {
    CurrentAgrees(cfg, s, strict);
    if acts != [] {
      assert acts[0] in acts;
      TickStep(cfg, s, acts[0]);
      CurrentStep(cfg, s, acts[0], strict);
      CheckpointAgrees(cfg, Do(cfg, s, acts[0]), acts[1..], strict);
    }
  }

  /**
   The file is rewritten in place. Once it is open its old contents are gone: a crash before
   the write is done, or a write that fails, leaves nothing for the next start to load.
   */
  lemma CrashWhileSavingLosesFile(cfg: Config, s: Sys)
    requires s.phase.Saving?
    ensures Can(cfg, s, Open(true)) && Can(cfg, s, Open(false))
    ensures var writing := Do(cfg, s, Open(true));
            && Can(cfg, writing, Crash) && Load(Do(cfg, writing, Crash).disk) == map[]
            && Can(cfg, writing, Write(false)) && Load(Do(cfg, writing, Write(false)).disk) == map[]
            && Can(cfg, writing, Write(true)) && Load(Do(cfg, writing, Write(true)).disk) == s.blocked
    ensures Load(Do(cfg, s, Open(false)).disk) == Load(s.disk)
  {
  }

  // ----- Restart -------------------------------------------------------------------------

  /** From a crash to the end of the first tick after it: `saved` is what the file held, `black` what the kernel blocked. */
  predicate Recovering(s: Sys, saved: Deadlines, black: set<Addr>) {
    match s.phase
    case Down => Load(s.disk) == saved && black <= s.kern.black
    case Restoring(_) => Unticked(s, saved, black) && s.hist.ticks == 0
    case Idle => if s.hist.ticks == 0 then Unticked(s, saved, black) else s.hist.ticks > 1 || Ticked(s, saved, black)
    case _ => s.hist.ticks > 0 || Ticked(s, saved, black)
  }

  predicate Unticked(s: Sys, saved: Deadlines, black: set<Addr>) {
    s.blocked == saved && black <= s.kern.black
  }

  predicate Ticked(s: Sys, saved: Deadlines, black: set<Addr>) {
    s.hist.base == saved && black <= s.hist.seen
  }

  lemma RecoveringStep(cfg: Config, s: Sys, a: Act, saved: Deadlines, black: set<Addr>)
    requires Can(cfg, s, a) && Recovering(s, saved, black) && !a.Crash?
    ensures Recovering(Do(cfg, s, a), saved, black)
  {
    match a
    case Kernel(e) => RecoveringAlongPackets(cfg, s, e, saved, black);
    case Start | Ready => RecoveringRestart(cfg, s, a, saved, black);
    case Reapply(_, _) => RecoveringRestart(cfg, s, a, saved, black);
    case Sample(_) =>
    case _ => RecoveringTick(cfg, s, a, saved, black);
  }

  lemma RecoveringAlongPackets(cfg: Config, s: Sys, e: Event, saved: Deadlines, black: set<Addr>)
    requires Can(cfg, s, Kernel(e)) && Recovering(s, saved, black)
    ensures Recovering(Do(cfg, s, Kernel(e)), saved, black)
  {
    forall x | x in s.kern.black ensures x in Step(s.kern, e).black {
      StepKeepsBlack(s.kern, e, x);
    }
  }

  lemma RecoveringRestart(cfg: Config, s: Sys, a: Act, saved: Deadlines, black: set<Addr>)
    requires Can(cfg, s, a) && Recovering(s, saved, black) && (a.Start? || a.Ready? || a.Reapply?)
    ensures Recovering(Do(cfg, s, a), saved, black)
  {
  }

  /** Within a tick, what it started from stays. */
  lemma RecoveringTick(cfg: Config, s: Sys, a: Act, saved: Deadlines, black: set<Addr>)
    requires Can(cfg, s, a) && Recovering(s, saved, black)
    requires !a.Kernel? && !a.Start? && !a.Ready? && !a.Reapply? && !a.Sample? && !a.Crash?
    ensures Recovering(Do(cfg, s, a), saved, black)
  {
    var s' := Do(cfg, s, a);
    assert s'.hist.base == s.hist.base && s'.hist.seen == s.hist.seen && s'.hist.ticks >= s.hist.ticks;
  }

  lemma {:induction false} RecoveringKept(cfg: Config, s: Sys, acts: seq<Act>, saved: Deadlines, black: set<Addr>)
    requires Legal(cfg, s, acts) && Recovering(s, saved, black) && Crash !in acts
    ensures Recovering(Exec(cfg, s, acts), saved, black)
    decreases |acts|
  {
    if acts != [] {
      assert acts[0] in acts;
      RecoveringStep(cfg, s, acts[0], saved, black);
      RecoveringKept(cfg, Do(cfg, s, acts[0]), acts[1..], saved, black);
    }
  }

  /**
   Crash recovery. The process crashes in state s, between any two steps and with the
   checkpoint old, new or torn; it is started again, puts back into the kernel what it can, and
   its first tick completes with good dumps at `e.now`. Then for every address x not allow-cached:
   what was blacklisted at the crash, or restored from the checkpoint, is tracked, or its
   time in the checkpoint was up and it was deleted or the delete failed; no deadline is later than a new
   block's; and a block of the table lost by the crash that has time left is still tracked,
   until no earlier than before, if and only if the checkpoint did not hold an earlier deadline.
   */
  lemma CrashRecovery(cfg: Config, s: Sys, acts: seq<Act>, x: Addr)
    requires !s.phase.Down? && Bounded(cfg, s) && cfg.cooldown > 0
    requires var s' := Do(cfg, s, Crash);
             && Legal(cfg, s', acts) && Crash !in acts
             && var e := Exec(cfg, s', acts); e.phase.Idle? && e.hist.ticks == 1 && e.hist.complete
    ensures var e, saved := Exec(cfg, Do(cfg, s, Crash), acts), Load(s.disk);
            && (x in saved && saved[x] <= e.now ==> x !in e.blocked && x in e.hist.released + e.hist.stuck)
            && (x in saved && saved[x] > e.now ==> x in e.blocked && e.blocked[x] == saved[x])
            && (x in s.kern.black && x !in saved && Reachable(cfg, x) && x !in e.cache ==>
                  x in e.blocked && e.blocked[x] == e.now + cfg.cooldown)
            && (x in e.blocked ==> e.now < e.blocked[x] <= e.now + cfg.cooldown)
            && (x in e.blocked && x in s.blocked ==>
                  (s.blocked[x] <= e.blocked[x] <==> !(x in saved && saved[x] < s.blocked[x])))
            && (x in s.blocked && e.now < s.blocked[x] && x in s.kern.black && Reachable(cfg, x) && x !in e.cache ==>
                  (x in e.blocked && s.blocked[x] <= e.blocked[x] <==> !(x in saved && saved[x] < s.blocked[x])))
  {
    var s' := Do(cfg, s, Crash);
    TickInvKept(cfg, s', acts);
    RecoveringKept(cfg, s', acts, Load(s.disk), s.kern.black);
    NowIsLater(cfg, s', acts, s.clock);
  }

  /** The latest tick of a process started after time t started after t. */
  predicate TickedSince(s: Sys, t: int) {
    && t <= s.clock
    && (match s.phase
        case Down => true
        case Restoring(_) => s.hist.ticks == 0
        case Idle => s.hist.ticks > 0 ==> t <= s.now
        case _ => t <= s.now)
  }

  lemma {:induction false} NowIsLater(cfg: Config, s: Sys, acts: seq<Act>, t: int)
    requires Legal(cfg, s, acts) && TickedSince(s, t)
    ensures TickedSince(Exec(cfg, s, acts), t)
    decreases |acts|
  {
    if acts != [] {
      NowIsLater(cfg, Do(cfg, s, acts[0]), acts[1..], t);
    }
  }

  /** A process that has not run yet, beside any kernel state and any checkpoint from the same boot. */
  ghost predicate Boot(cfg: Config, s: Sys) {
    s.phase.Down? && Bounded(cfg, s) && s.hist == NO_HISTORY && s.blocked == map[]
  }

  /** Recovery from a crash anywhere in any run in which saves get to open the file. */
  lemma CrashAnywhereRecovers(cfg: Config, boot: Sys, before: seq<Act>, after: seq<Act>, x: Addr)
    requires Boot(cfg, boot) && Legal(cfg, boot, before) && Open(false) !in before && cfg.cooldown > 0
    requires var s := Exec(cfg, boot, before);
             && !s.phase.Down?
             && var s' := Do(cfg, s, Crash);
                && Legal(cfg, s', after) && Crash !in after
                && var e := Exec(cfg, s', after); e.phase.Idle? && e.hist.ticks == 1 && e.hist.complete
    ensures var s := Exec(cfg, boot, before);
            var e, saved := Exec(cfg, Do(cfg, s, Crash), after), Load(s.disk);
            && (x in saved && saved[x] <= e.now ==> x !in e.blocked && x in e.hist.released + e.hist.stuck)
            && ((x in saved || x in s.kern.black) && !(x in saved && saved[x] <= e.now) && Reachable(cfg, x) && x !in e.cache ==>
                  x in e.blocked)
            && (x in e.blocked ==> e.now < e.blocked[x] <= e.now + cfg.cooldown)
            && (x in e.blocked && x in s.blocked ==> s.blocked[x] <= e.blocked[x])
            && (x in s.blocked && e.now < s.blocked[x] && x in s.kern.black && Reachable(cfg, x) && x !in e.cache ==>
                  x in e.blocked && s.blocked[x] <= e.blocked[x])
  {
    BoundedKept(cfg, boot, before);
    CheckpointAgrees(cfg, boot, before, false);
    CrashRecovery(cfg, Exec(cfg, boot, before), after, x);
    assert Agree(Load(Exec(cfg, boot, before).disk), Exec(cfg, boot, before).blocked);
  }

  // ----- A block is kept until its deadline ----------------------------------------------

  /** x is blacklisted, neither table nor file gives it less than `deadline`, and no tick has reached that time. */
  predicate Holds(cfg: Config, s: Sys, x: Addr, deadline: int) {
    && x in s.kern.black
    && deadline - cfg.cooldown <= s.now < deadline && s.now <= s.clock
    && (x in s.blocked ==> deadline <= s.blocked[x])
    && (x in Load(s.disk) ==> deadline <= Load(s.disk)[x])
    && (match s.phase
        case Deleting(todo) => x !in todo
        case Popping(y, todo) => x != y && x !in todo
        case _ => true)
  }

  lemma HoldsStep(cfg: Config, s: Sys, a: Act, x: Addr, deadline: int)
    requires Can(cfg, s, a) && Holds(cfg, s, x, deadline) && (a.Sample? ==> a.time < deadline)
    ensures Holds(cfg, Do(cfg, s, a), x, deadline)
    ensures KernelEvent(cfg, s, a).Some? ==> KernelEvent(cfg, s, a).value.act != Unblock(x)
  {
    var e := KernelEvent(cfg, s, a);
    if e.Some? {
      StepKeepsBlack(s.kern, e.value, x);
    }
  }

  /** The filter's own run inside a run of the whole system. */
  function KernelRun(cfg: Config, s: Sys, acts: seq<Act>): seq<Event>
    requires Legal(cfg, s, acts)
    decreases |acts|
  {
    if acts == [] then []
    else
      var e := KernelEvent(cfg, s, acts[0]);
      (if e.Some? then [e.value] else []) + KernelRun(cfg, Do(cfg, s, acts[0]), acts[1..])
  }

  lemma {:induction false} KernelRunsAlong(cfg: Config, s: Sys, acts: seq<Act>)
    requires Legal(cfg, s, acts)
    ensures Exec(cfg, s, acts).kern == Run(s.kern, KernelRun(cfg, s, acts))
    decreases |acts|
  {
    if acts != [] {
      KernelRunsAlong(cfg, Do(cfg, s, acts[0]), acts[1..]);
      var rest := KernelRun(cfg, Do(cfg, s, acts[0]), acts[1..]);
      var e := KernelEvent(cfg, s, acts[0]);
      if e.Some? {
        assert ([e.value] + rest)[1..] == rest;
      } else {
        assert [] + rest == rest;
      }
    }
  }

  lemma {:induction false} HoldsKept(cfg: Config, s: Sys, acts: seq<Act>, x: Addr, deadline: int)
    requires Legal(cfg, s, acts) && Holds(cfg, s, x, deadline)
    requires forall a :: a in acts ==> (a.Sample? ==> a.time < deadline) && (a.Kernel? ==> a.event.act != Allow(x))
    ensures Holds(cfg, Exec(cfg, s, acts), x, deadline)
    ensures forall e :: e in KernelRun(cfg, s, acts) ==> e.act != Unblock(x) && e.act != Allow(x)
    decreases |acts|
  {
    if acts != [] {
      assert acts[0] in acts;
      HoldsStep(cfg, s, acts[0], x, deadline);
      HoldsKept(cfg, Do(cfg, s, acts[0]), acts[1..], x, deadline);
    }
  }

  /**
   The guarantee of the two halves together. A source whose block was recorded by the tick
   that started at T gets no packet through before a tick that starts at T + cooldown or
   later, whatever the packets, evictions, failed saves, failed deletes, crashes and restarts
   in between, unless somebody allowlists it.
   */
  lemma DeniedUntilDeadline(cfg: Config, s: Sys, acts: seq<Act>, x: Addr, deadline: int)
    requires Legal(cfg, s, acts) && Holds(cfg, s, x, deadline) && x !in s.kern.allow
    requires forall a :: a in acts ==> (a.Sample? ==> a.time < deadline) && (a.Kernel? ==> a.event.act != Allow(x))
    ensures x in Exec(cfg, s, acts).kern.black
    ensures forall o :: o in OutcomesOf(s.kern, KernelRun(cfg, s, acts), x) ==> !o.Passed()
    ensures AlertCount(Exec(cfg, s, acts).kern.alerts, x) == AlertCount(s.kern.alerts, x)
  {
    HoldsKept(cfg, s, acts, x, deadline);
    KernelRunsAlong(cfg, s, acts);
    RL.BlockedSourceIsSilent(s.kern, KernelRun(cfg, s, acts), x);
  }

  /** Recording a block makes it hold until the tick's start plus the cooldown. */
  lemma TrackedHolds(cfg: Config, s: Sys, x: Addr)
    requires Can(cfg, s, Track(x)) && x !in s.blocked && x !in s.cache
    requires TickInv(cfg, s) && Dumped(s) && Bounded(cfg, s) && Current(cfg, s, false) && cfg.cooldown > 0
    ensures Holds(cfg, Do(cfg, s, Track(x)), x, s.now + cfg.cooldown)
  {
    assert x in s.hist.dump;
    assert Agree(Load(s.disk), s.blocked) && x !in Load(s.disk);
  }

  /**
   The guarantee from boot. In any run in which saves get to open the file, whenever the brain
   records a new block, the source is blacklisted and gets no packet through before a tick that
   starts a cooldown after the present one, whatever comes after: packets, evictions, saves and
   deletes that fail, crashes, restarts.
   */
  lemma RecordedBlockIsKept(cfg: Config, boot: Sys, before: seq<Act>, x: Addr, after: seq<Act>)
    requires Boot(cfg, boot) && Legal(cfg, boot, before) && Open(false) !in before && cfg.cooldown > 0
    requires var s := Exec(cfg, boot, before);
             && Can(cfg, s, Track(x)) && x !in s.blocked && x !in s.cache && x !in s.kern.allow
             && Legal(cfg, Do(cfg, s, Track(x)), after)
             && forall a :: a in after ==>
                  (a.Sample? ==> a.time < s.now + cfg.cooldown) && (a.Kernel? ==> a.event.act != Allow(x))
    ensures var s := Do(cfg, Exec(cfg, boot, before), Track(x));
            var e := Exec(cfg, s, after);
            && x in s.kern.black && x in e.kern.black
            && (forall o :: o in OutcomesOf(s.kern, KernelRun(cfg, s, after), x) ==> !o.Passed())
            && AlertCount(e.kern.alerts, x) == AlertCount(s.kern.alerts, x)
  {
    var s := Exec(cfg, boot, before);
    TickInvKept(cfg, boot, before);
    DumpedKept(cfg, boot, before);
    BoundedKept(cfg, boot, before);
    CheckpointAgrees(cfg, boot, before, false);
    TrackedHolds(cfg, s, x);
    DeniedUntilDeadline(cfg, Do(cfg, s, Track(x)), after, x, s.now + cfg.cooldown);
  }

  // ----- A block is taken down at its deadline -------------------------------------------

  /** x is in the table with that deadline, no tick has reached it, and nobody is taking x down. */
  predicate Scheduled(s: Sys, x: Addr, deadline: int) {
    && x in s.blocked && s.blocked[x] == deadline && s.now < deadline
    && (match s.phase
        case Down | Restoring(_) => false
        case Deleting(todo) => x !in todo
        case Popping(y, todo) => x != y && x !in todo
        case _ => true)
  }

  lemma ScheduledStep(cfg: Config, s: Sys, a: Act, x: Addr, deadline: int)
    requires Can(cfg, s, a) && Scheduled(s, x, deadline) && !a.Crash? && (a.Sample? ==> a.time < deadline)
    ensures Scheduled(Do(cfg, s, a), x, deadline)
  {
  }

  lemma {:induction false} ScheduledKept(cfg: Config, s: Sys, acts: seq<Act>, x: Addr, deadline: int)
    requires Legal(cfg, s, acts) && Scheduled(s, x, deadline)
    requires Crash !in acts && forall a :: a in acts && a.Sample? ==> a.time < deadline
    ensures Scheduled(Exec(cfg, s, acts), x, deadline)
    decreases |acts|
  {
    if acts != [] {
      assert acts[0] in acts;
      ScheduledStep(cfg, s, acts[0], x, deadline);
      ScheduledKept(cfg, Do(cfg, s, acts[0]), acts[1..], x, deadline);
    }
  }

  /**
   The other half of the guarantee from boot. A block recorded by the tick that started at T
   stays in the table through all ticks that start before T + cooldown, and the first tick that
   starts then or later tries to delete it and drops it, whatever packets and failures come
   between, as long as the process does not crash.
   */
  lemma RecordedBlockIsTakenDown(cfg: Config, boot: Sys, before: seq<Act>, x: Addr, between: seq<Act>, start: U64, tick: seq<Act>)
    requires Boot(cfg, boot) && Legal(cfg, boot, before) && cfg.cooldown > 0
    requires var s := Exec(cfg, boot, before);
             && Can(cfg, s, Track(x)) && x !in s.blocked && x !in s.cache
             && Legal(cfg, Do(cfg, s, Track(x)), between)
             && Crash !in between && (forall a :: a in between && a.Sample? ==> a.time < s.now + cfg.cooldown)
             && s.now + cfg.cooldown <= start
             && OneTick(cfg, Exec(cfg, Do(cfg, s, Track(x)), between), start, tick)
    ensures var s := Exec(cfg, boot, before);
            var idle := Exec(cfg, Do(cfg, s, Track(x)), between);
            var e := Exec(cfg, Do(cfg, idle, Sample(start)), tick);
            && x in idle.blocked && idle.blocked[x] == s.now + cfg.cooldown
            && x !in e.blocked && x in e.hist.released + e.hist.stuck
            && (Delete(x, true) in tick || Delete(x, false) in tick)
  {
    var s := Exec(cfg, boot, before);
    var s1 := Do(cfg, s, Track(x));
    TickInvKept(cfg, boot, before);
    TickStep(cfg, s, Track(x));
    TickInvKept(cfg, s1, between);
    ScheduledKept(cfg, s1, between, x, s.now + cfg.cooldown);
    DeletedAtDeadline(cfg, Exec(cfg, s1, between), start, tick, x);
  }

  // ----- Bookkeeping ---------------------------------------------------------------------

  /** Blocks in the table, and those counted out of it, are those loaded and those counted in. */
  predicate Conserved(s: Sys) {
    s.phase.Down? ||
    |s.blocked| + s.metrics.unblockEvents + s.hist.failures
      == s.hist.loaded + s.metrics.blockEvents + (if s.phase.Popping? then 1 else 0)
  }

  lemma ConservedStep(cfg: Config, s: Sys, a: Act)
    requires Can(cfg, s, a) && TickInv(cfg, s) && Conserved(s)
    ensures Conserved(Do(cfg, s, a))
  {
    match a
    case Pop => ConservedPop(cfg, s);
    case Track(x) =>
    case Delete(x, ok) =>
    case Start | Crash =>
    case _ => ConservedQuiet(cfg, s, a);
  }

  lemma ConservedPop(cfg: Config, s: Sys)
    requires Can(cfg, s, Pop) && TickInv(cfg, s) && Conserved(s)
    ensures Conserved(Do(cfg, s, Pop))
  {
    assert s.phase.addr in s.blocked;
    assert s.blocked.Keys - {s.phase.addr} == (s.blocked - {s.phase.addr}).Keys;
  }

  lemma ConservedQuiet(cfg: Config, s: Sys, a: Act)
    requires Can(cfg, s, a) && Conserved(s)
    requires !a.Pop? && !a.Track? && !a.Delete? && !a.Start? && !a.Crash?
    ensures Conserved(Do(cfg, s, a))
  {
  }

  predicate Published(s: Sys) {
    && (s.phase.PublishingCount? || (s.phase.Idle? && s.hist.ticks > 0) ==> s.metrics.blockedSet == s.blocked.Keys)
    && (s.phase.Idle? && s.hist.ticks > 0 ==> s.metrics.blockedCount == |s.blocked|)
    && (s.phase.Restoring? ==> s.hist.ticks == 0)
  }

  lemma PublishedStep(cfg: Config, s: Sys, a: Act)
    requires Can(cfg, s, a) && Published(s)
    ensures Published(Do(cfg, s, a))
  {
  }

  /** The counters add up at every tick boundary, and the published set and count match the table. */
  lemma {:induction false} CountersAddUp(cfg: Config, s: Sys, acts: seq<Act>)
    requires Legal(cfg, s, acts) && TickInv(cfg, s) && Conserved(s) && Published(s)
    ensures var e := Exec(cfg, s, acts);
            && Conserved(e) && Published(e)
            && (e.phase.Idle? ==>
                  |e.blocked| == e.hist.loaded + e.metrics.blockEvents - e.metrics.unblockEvents - e.hist.failures)
            && (e.phase.Idle? && e.hist.ticks > 0 ==> e.metrics.blockedCount == |e.metrics.blockedSet|)
    decreases |acts|
  {
    if acts != [] {
      TickStep(cfg, s, acts[0]);
      ConservedStep(cfg, s, acts[0]);
      PublishedStep(cfg, s, acts[0]);
      CountersAddUp(cfg, Do(cfg, s, acts[0]), acts[1..]);
    }
  }

  /** Until the process stops, the event counters only grow. */
  lemma {:induction false} EventsOnlyGrow(cfg: Config, s: Sys, acts: seq<Act>)
    requires Legal(cfg, s, acts) && !s.phase.Down? && Crash !in acts
    ensures var e := Exec(cfg, s, acts);
            && !e.phase.Down?
            && s.metrics.blockEvents <= e.metrics.blockEvents
            && s.metrics.unblockEvents <= e.metrics.unblockEvents
    decreases |acts|
  {
    if acts != [] {
      assert acts[0] in acts;
      EventsOnlyGrow(cfg, Do(cfg, s, acts[0]), acts[1..]);
    }
  }
}
