/**
 Theorems about the life of a block. First: a tick of the brain does the same to its table
 of deadlines as one atomic step would, however kernel events interleave with it.
 */
module BlockLifetime {
  import opened Words
  import opened Pipeline
  import opened Lifecycle

  function Full(cfg: Config, s: Sys): Deadlines {
    Merge(s.hist.base, s.hist.dump, s.cache, s.now + cfg.cooldown)
  }

  function Due(cfg: Config, s: Sys): set<Addr> {
    Expired(Full(cfg, s), s.now)
  }

  /** A complete dump holds every address that was blacklisted when the tick started. */
  predicate Covered(cfg: Config, s: Sys) {
    s.hist.complete ==> forall x :: x in s.hist.seen && Reachable(cfg, x) ==> x in s.hist.dump
  }

  predicate TickDone(cfg: Config, s: Sys) {
    && Covered(cfg, s)
    && s.blocked == TickResult(s.hist.base, s.hist.dump, s.cache, s.now, cfg.cooldown)
    && s.hist.released + s.hist.stuck == Due(cfg, s)
  }

  predicate TickInv(cfg: Config, s: Sys) {
    match s.phase
    case Down => true
    case Restoring(_) => s.hist.ticks == 0
    case Idle => s.hist.ticks > 0 ==> TickDone(cfg, s)
    case Refreshing | Dumping4 =>
      && s.blocked == s.hist.base && s.hist.dump == s.hist.released == s.hist.stuck == {} && !s.hist.complete
      && s.hist.seen <= s.kern.black
    case Dumping6 =>
      && s.hist.seen <= s.kern.black
      && s.blocked == s.hist.base && s.hist.released == s.hist.stuck == {} && !s.hist.complete
      && Family(s.hist.seen, false) <= s.hist.dump
    case Tracking(todo) => Adding(cfg, s, todo)
    case Saving(todo, final) => if final then TickDone(cfg, s) else Adding(cfg, s, todo)
    case Writing(todo, final) => if final then TickDone(cfg, s) else Adding(cfg, s, todo)
    case Deleting(todo) => Removing(cfg, s, todo, todo)
    case Popping(x, todo) => x !in todo && Removing(cfg, s, todo + {x}, todo)
    case PublishingSet | PublishingCount => TickDone(cfg, s)
  }

  predicate Adding(cfg: Config, s: Sys, todo: set<Addr>) {
    && Covered(cfg, s) && todo <= s.hist.dump && s.hist.released == s.hist.stuck == {}
    && s.blocked == Merge(s.hist.base, s.hist.dump - todo, s.cache, s.now + cfg.cooldown)
  }

  /** The expired blocks in `kept` are still in the table; those in `todo` have not been deleted yet. */
  predicate Removing(cfg: Config, s: Sys, kept: set<Addr>, todo: set<Addr>) {
    && Covered(cfg, s) && todo <= kept <= Due(cfg, s)
    && s.blocked == Full(cfg, s) - (Due(cfg, s) - kept)
    && s.hist.released + s.hist.stuck == Due(cfg, s) - todo
  }

  lemma StepKeepsBlack(st: State, e: Event, x: Addr)
    requires x in st.black && e.act != Unblock(x)
    ensures x in Step(st, e).black
  {
    if e.act.Packet? {
      PacketKeepsBlack(st, e.now, e.act.frame, e.act.writes, x);
    }
  }

  lemma PacketKeepsBlack(st: State, now: U64, f: Frame, w: Writes, x: Addr)
    requires x in st.black
    ensures x in Receive(st, now, f, w).0.black
  {
    if Source(f).Some? {
      assert x in Metered(Gated(st, now), Source(f).value, w).black;
    }
  }

  lemma TrackStep(cfg: Config, s: Sys, x: Addr)
    requires Can(cfg, s, Track(x)) && TickInv(cfg, s)
    ensures TickInv(cfg, Do(cfg, s, Track(x)))
  {
    var h, todo := s.hist, s.phase.todo;
    var deadline := s.now + cfg.cooldown;
    var before, after := Merge(h.base, h.dump - todo, s.cache, deadline), Merge(h.base, h.dump - (todo - {x}), s.cache, deadline);
    assert h.dump - (todo - {x}) == (h.dump - todo) + {x};
    if x !in s.blocked && x !in s.cache {
      assert after == before[x := deadline];
    } else {
      assert after == before;
    }
  }

  lemma ExpireStep(cfg: Config, s: Sys)
    requires Can(cfg, s, Expire) && TickInv(cfg, s)
    ensures TickInv(cfg, Do(cfg, s, Expire))
  {
    assert s.hist.dump - {} == s.hist.dump;
    var due := Due(cfg, s);
    assert due == Expired(s.blocked, s.now);
    assert s.blocked - (due - due) == s.blocked;
    if due == {} {
      assert s.blocked - due == s.blocked;
    }
  }

  lemma DeleteStep(cfg: Config, s: Sys, x: Addr, ok: bool)
    requires Can(cfg, s, Delete(x, ok)) && TickInv(cfg, s)
    ensures TickInv(cfg, Do(cfg, s, Delete(x, ok)))
  {
    var todo, s' := s.phase.todo, Do(cfg, s, Delete(x, ok));
    assert Full(cfg, s') == Full(cfg, s) && s'.blocked == s.blocked;
    OneFewer(Due(cfg, s), todo, x);
  }

  lemma OneFewer(due: set<Addr>, todo: set<Addr>, x: Addr)
    requires x in todo && todo <= due
    ensures todo - {x} + {x} == todo && due - (todo - {x}) == (due - todo) + {x}
  {
  }

  lemma PopStep(cfg: Config, s: Sys)
    requires Can(cfg, s, Pop) && TickInv(cfg, s)
    ensures TickInv(cfg, Do(cfg, s, Pop))
  {
    var x, todo, due, full := s.phase.addr, s.phase.todo, Due(cfg, s), Full(cfg, s);
    assert full - (due - (todo + {x})) - {x} == full - (due - todo);
  }

  lemma DeletedStep(cfg: Config, s: Sys)
    requires Can(cfg, s, Deleted) && TickInv(cfg, s)
    ensures TickInv(cfg, Do(cfg, s, Deleted))
  {
    var due := Due(cfg, s);
    assert due - {} == due;
  }

  lemma DumpStep(cfg: Config, s: Sys, a: Act)
    requires Can(cfg, s, a) && TickInv(cfg, s) && (a.Dump4? || a.Dump6?)
    ensures TickInv(cfg, Do(cfg, s, a))
  {
    var s' := Do(cfg, s, a);
    assert s'.hist.dump - s'.hist.dump == {};
    assert Merge(s'.hist.base, {}, s'.cache, s'.now + cfg.cooldown) == s'.hist.base;
  }

  lemma SaveStep(cfg: Config, s: Sys, a: Act)
    requires Can(cfg, s, a) && TickInv(cfg, s) && (a.Open? || a.Write?)
    ensures TickInv(cfg, Do(cfg, s, a))
  {
  }

  lemma KernelStep(cfg: Config, s: Sys, e: Event)
    requires Can(cfg, s, Kernel(e)) && TickInv(cfg, s)
    ensures TickInv(cfg, Do(cfg, s, Kernel(e)))
  {
    forall x | x in s.kern.black ensures x in Step(s.kern, e).black {
      StepKeepsBlack(s.kern, e, x);
    }
  }

  lemma RestartStep(cfg: Config, s: Sys, a: Act)
    requires Can(cfg, s, a) && TickInv(cfg, s) && (a.Start? || a.Reapply? || a.Ready? || a.Crash?)
    ensures TickInv(cfg, Do(cfg, s, a))
  {
  }

  lemma OtherStep(cfg: Config, s: Sys, a: Act)
    requires Can(cfg, s, a) && TickInv(cfg, s) && (a.Sample? || a.Refresh? || a.PublishSet? || a.PublishCount?)
    ensures TickInv(cfg, Do(cfg, s, a))
  {
  }

  lemma TickStep(cfg: Config, s: Sys, a: Act)
    requires Can(cfg, s, a) && TickInv(cfg, s)
    ensures TickInv(cfg, Do(cfg, s, a))
  {
    match a
    case Kernel(e) => KernelStep(cfg, s, e);
    case Track(x) => TrackStep(cfg, s, x);
    case Expire => ExpireStep(cfg, s);
    case Delete(x, ok) => DeleteStep(cfg, s, x, ok);
    case Pop => PopStep(cfg, s);
    case Deleted => DeletedStep(cfg, s);
    case Dump4(_) => DumpStep(cfg, s, a);
    case Dump6(_) => DumpStep(cfg, s, a);
    case Open(_) => SaveStep(cfg, s, a);
    case Write(_) => SaveStep(cfg, s, a);
    case Start | Ready | Crash => RestartStep(cfg, s, a);
    case Reapply(_, _) => RestartStep(cfg, s, a);
    case _ => OtherStep(cfg, s, a);
  }

  lemma {:induction false} TickInvKept(cfg: Config, s: Sys, acts: seq<Act>)
    requires Legal(cfg, s, acts) && TickInv(cfg, s)
    ensures TickInv(cfg, Exec(cfg, s, acts))
    decreases |acts|
  {
    if acts != [] {
      TickStep(cfg, s, acts[0]);
      TickInvKept(cfg, Do(cfg, s, acts[0]), acts[1..]);
    }
  }

  /** What a completed tick leaves behind, whatever came between its steps. */
  lemma TickOutcome(cfg: Config, s: Sys, acts: seq<Act>)
    requires Legal(cfg, s, acts) && TickInv(cfg, s)
    requires Exec(cfg, s, acts).phase.Idle? && Exec(cfg, s, acts).hist.ticks > 0
    ensures var e := Exec(cfg, s, acts);
            && e.blocked == TickResult(e.hist.base, e.hist.dump, e.cache, e.now, cfg.cooldown)
            && e.hist.released + e.hist.stuck == Due(cfg, e)
  {
    TickInvKept(cfg, s, acts);
  }

  /**
   No orphaned block: after a tick with complete dumps, an address that was blacklisted when
   it started and is not allow-cached is tracked with a deadline still to come, or its time
   was up and a delete was tried.
   */
  lemma NoOrphan(cfg: Config, s: Sys, acts: seq<Act>, x: Addr)
    requires Legal(cfg, s, acts) && TickInv(cfg, s)
    requires var e := Exec(cfg, s, acts);
             && e.phase.Idle? && e.hist.ticks > 0 && e.hist.complete
             && x in e.hist.seen && x !in e.cache && Reachable(cfg, x)
    ensures var e := Exec(cfg, s, acts);
            var newest := if x in e.hist.base then e.hist.base[x] else e.now + cfg.cooldown;
            if newest > e.now then x in e.blocked && e.blocked[x] == newest
            else x !in e.blocked && x in e.hist.released + e.hist.stuck
  {
    TickInvKept(cfg, s, acts);
  }

  // ----- One tick at a time --------------------------------------------------------------

  /** Between two clock samples of one process, a tick remembers what it started from. */
  lemma {:induction false} SameTick(cfg: Config, s: Sys, acts: seq<Act>)
    requires Legal(cfg, s, acts) && !s.phase.Down? && forall a :: a in acts ==> !a.Sample? && !a.Crash?
    ensures var e := Exec(cfg, s, acts);
            && !e.phase.Down? && e.now == s.now && e.hist.base == s.hist.base && e.hist.seen == s.hist.seen
            && s.hist.ticks <= e.hist.ticks
    decreases |acts|
  {
    if acts != [] {
      assert acts[0] in acts;
      SameTick(cfg, Do(cfg, s, acts[0]), acts[1..]);
    }
  }

  /** The steps of one whole tick started at `start`, with kernel events between them. */
  predicate OneTick(cfg: Config, s: Sys, start: U64, acts: seq<Act>) {
    && Can(cfg, s, Sample(start))
    && Legal(cfg, Do(cfg, s, Sample(start)), acts)
    && (forall a :: a in acts ==> !a.Sample? && !a.Crash?)
    && Exec(cfg, Do(cfg, s, Sample(start)), acts).phase.Idle?
    && Exec(cfg, Do(cfg, s, Sample(start)), acts).hist.ticks > 0
  }

  /** The first tick started at or after a deadline takes the block down, or at least tries to delete it. */
  lemma DeletedAtDeadline(cfg: Config, s: Sys, start: U64, acts: seq<Act>, x: Addr)
    requires TickInv(cfg, s) && OneTick(cfg, s, start, acts)
    requires x in s.blocked && s.blocked[x] <= start
    ensures var e := Exec(cfg, Do(cfg, s, Sample(start)), acts);
            x !in e.blocked && x in e.hist.released + e.hist.stuck
    ensures Delete(x, true) in acts || Delete(x, false) in acts
  {
    var s1 := Do(cfg, s, Sample(start));
    TickStep(cfg, s, Sample(start));
    TickInvKept(cfg, s1, acts);
    SameTick(cfg, s1, acts);
    if Delete(x, true) !in acts {
      OnlyDeletesRelease(cfg, s1, acts, x);
    }
  }

  lemma {:induction false} OnlyDeletesRelease(cfg: Config, s: Sys, acts: seq<Act>, x: Addr)
    requires Legal(cfg, s, acts) && Delete(x, true) !in acts && x !in s.hist.released
    ensures x !in Exec(cfg, s, acts).hist.released
    ensures Delete(x, false) !in acts && x !in s.hist.stuck ==> x !in Exec(cfg, s, acts).hist.stuck
    decreases |acts|
  {
    if acts != [] {
      assert acts[0] in acts;
      OnlyDeletesRelease(cfg, Do(cfg, s, acts[0]), acts[1..], x);
    }
  }

  /** A block whose delete failed is still blacklisted but no longer tracked; the next complete tick tracks it again. */
  lemma FailedDeleteIsRetried(cfg: Config, s: Sys, start: U64, acts: seq<Act>, x: Addr)
    requires TickInv(cfg, s) && OneTick(cfg, s, start, acts) && cfg.cooldown > 0
    requires x in s.kern.black && x !in s.blocked && Reachable(cfg, x)
    requires var e := Exec(cfg, Do(cfg, s, Sample(start)), acts); e.hist.complete && x !in e.cache
    ensures var e := Exec(cfg, Do(cfg, s, Sample(start)), acts);
            x in e.blocked && e.blocked[x] == start + cfg.cooldown
  {
    var s1 := Do(cfg, s, Sample(start));
    TickStep(cfg, s, Sample(start));
    SameTick(cfg, s1, acts);
    NoOrphan(cfg, s1, acts, x);
  }

  /** In a tick that has not been able to delete x: it is still blacklisted, and out of the table or about to be. */
  predicate Orphaned(s: Sys, x: Addr) {
    && x in s.kern.black
    && match s.phase
       case Popping(y, todo) => x !in todo && (x == y || x !in s.blocked)
       case Deleting(todo) => x !in todo && x !in s.blocked
       case Saving(_, final) => final && x !in s.blocked
       case Writing(_, final) => final && x !in s.blocked
       case PublishingSet | PublishingCount | Idle => x !in s.blocked
       case _ => false
  }

  lemma OrphanedStep(cfg: Config, s: Sys, a: Act, x: Addr)
    requires Can(cfg, s, a) && Orphaned(s, x) && !a.Sample? && !a.Crash?
    ensures Orphaned(Do(cfg, s, a), x)
  {
    if a.Kernel? {
      StepKeepsBlack(s.kern, a.event, x);
    }
  }

  lemma {:induction false} OrphanedKept(cfg: Config, s: Sys, acts: seq<Act>, x: Addr)
    requires Legal(cfg, s, acts) && Orphaned(s, x) && forall a :: a in acts ==> !a.Sample? && !a.Crash?
    ensures Orphaned(Exec(cfg, s, acts), x)
    decreases |acts|
  {
    if acts != [] {
      assert acts[0] in acts;
      OrphanedStep(cfg, s, acts[0], x);
      OrphanedKept(cfg, Do(cfg, s, acts[0]), acts[1..], x);
    }
  }

  /** From the delete that fails: the rest of that tick drops the block, and the next complete tick tracks it again. */
  lemma FailedDeleteIsTrackedAgain(cfg: Config, s: Sys, x: Addr, rest: seq<Act>, start: U64, tick: seq<Act>)
    requires TickInv(cfg, s) && Can(cfg, s, Delete(x, false)) && x in s.kern.black && Reachable(cfg, x) && cfg.cooldown > 0
    requires var s1 := Do(cfg, s, Delete(x, false));
             && Legal(cfg, s1, rest) && (forall a :: a in rest ==> !a.Sample? && !a.Crash?)
             && var idle := Exec(cfg, s1, rest);
                && OneTick(cfg, idle, start, tick)
                && var e := Exec(cfg, Do(cfg, idle, Sample(start)), tick); e.hist.complete && x !in e.cache
    ensures var idle := Exec(cfg, Do(cfg, s, Delete(x, false)), rest);
            var e := Exec(cfg, Do(cfg, idle, Sample(start)), tick);
            && x in idle.kern.black && x !in idle.blocked
            && x in e.blocked && e.blocked[x] == start + cfg.cooldown
  {
    var s1 := Do(cfg, s, Delete(x, false));
    TickStep(cfg, s, Delete(x, false));
    TickInvKept(cfg, s1, rest);
    OrphanedKept(cfg, s1, rest, x);
    FailedDeleteIsRetried(cfg, Exec(cfg, s1, rest), start, tick, x);
  }

  // ----- Deadlines are bounded by the clock ----------------------------------------------

  ghost predicate Bounded(cfg: Config, s: Sys) {
    && s.now <= s.clock
    && (forall x :: x in s.blocked ==> s.blocked[x] <= s.clock + cfg.cooldown)
    && (forall x :: x in Load(s.disk) ==> Load(s.disk)[x] <= s.clock + cfg.cooldown)
  }

  lemma {:induction false} BoundedKept(cfg: Config, s: Sys, acts: seq<Act>)
    requires Legal(cfg, s, acts) && Bounded(cfg, s)
    ensures Bounded(cfg, Exec(cfg, s, acts)) && s.clock <= Exec(cfg, s, acts).clock
    decreases |acts|
  {
    if acts != [] {
      BoundedKept(cfg, Do(cfg, s, acts[0]), acts[1..]);
    }
  }

  // ----- The blacklist backs the table ---------------------------------------------------

  /** Every tracked address the brain can reach is blacklisted, but for the ones being restored or popped. */
  ghost predicate Backed(cfg: Config, s: Sys) {
    && (forall x :: x in s.blocked && Reachable(cfg, x) ==>
          || x in s.kern.black
          || (s.phase.Restoring? && x in s.phase.todo)
          || (s.phase.Popping? && x == s.phase.addr))
    && Dumped(s)
  }

  /** Until the expired blocks are taken down, everything found by the dumps is still blacklisted. */
  predicate Dumped(s: Sys) {
    match s.phase
    case Dumping6 | Tracking(_) => s.hist.dump <= s.kern.black
    case Saving(_, final) => final || s.hist.dump <= s.kern.black
    case Writing(_, final) => final || s.hist.dump <= s.kern.black
    case _ => true
  }

  lemma DumpedStep(cfg: Config, s: Sys, a: Act)
    requires Can(cfg, s, a) && TickInv(cfg, s) && Dumped(s)
    ensures Dumped(Do(cfg, s, a))
  {
    match a
    case Kernel(e) => DumpedAlongPackets(cfg, s, e);
    case Dump4(Some(found)) => assert found <= Family(s.kern.black, false) <= s.kern.black;
    case Dump6(Some(found)) => assert found <= Family(s.kern.black, true) <= s.kern.black;
    case Delete(_, _) => assert !Do(cfg, s, a).phase.Saving?;
    case _ => assert s.kern.black <= Do(cfg, s, a).kern.black;
  }

  lemma DumpedAlongPackets(cfg: Config, s: Sys, e: Event)
    requires Can(cfg, s, Kernel(e)) && Dumped(s)
    ensures Dumped(Do(cfg, s, Kernel(e)))
  {
    forall x | x in s.kern.black ensures x in Step(s.kern, e).black {
      StepKeepsBlack(s.kern, e, x);
    }
  }

  lemma {:induction false} DumpedKept(cfg: Config, s: Sys, acts: seq<Act>)
    requires Legal(cfg, s, acts) && TickInv(cfg, s) && Dumped(s)
    ensures Dumped(Exec(cfg, s, acts))
    decreases |acts|
  {
    if acts != [] {
      TickStep(cfg, s, acts[0]);
      DumpedStep(cfg, s, acts[0]);
      DumpedKept(cfg, Do(cfg, s, acts[0]), acts[1..]);
    }
  }

  lemma BackedStep(cfg: Config, s: Sys, a: Act)
    requires Can(cfg, s, a) && TickInv(cfg, s) && Backed(cfg, s) && (a.Reapply? ==> a.ok)
    ensures Backed(cfg, Do(cfg, s, a))
  {
    match a
    case Kernel(_) => BackedAlongPackets(cfg, s, a);
    case Delete(_, _) => BackedAlongDelete(cfg, s, a);
    case Start | Ready | Crash => BackedAlongRestart(cfg, s, a);
    case Reapply(_, _) => BackedAlongRestart(cfg, s, a);
    case Dump4(_) => BackedAlongDump(cfg, s, a);
    case Dump6(_) => BackedAlongDump(cfg, s, a);
    case Track(_) => BackedAlongTrack(cfg, s, a);
    case Open(_) => BackedAlongSave(cfg, s, a);
    case Write(_) => BackedAlongSave(cfg, s, a);
    case _ => BackedAlongRest(cfg, s, a);
  }

  lemma BackedAlongRestart(cfg: Config, s: Sys, a: Act)
    requires Can(cfg, s, a) && Backed(cfg, s) && (a.Reapply? ==> a.ok)
    requires a.Start? || a.Reapply? || a.Ready? || a.Crash?
    ensures Backed(cfg, Do(cfg, s, a))
  {
  }

  lemma BackedAlongDump(cfg: Config, s: Sys, a: Act)
    requires Can(cfg, s, a) && TickInv(cfg, s) && Backed(cfg, s) && (a.Dump4? || a.Dump6?)
    ensures Backed(cfg, Do(cfg, s, a))
  {
  }

  lemma BackedAlongTrack(cfg: Config, s: Sys, a: Act)
    requires Can(cfg, s, a) && TickInv(cfg, s) && Backed(cfg, s) && a.Track?
    ensures Backed(cfg, Do(cfg, s, a))
  {
  }

  lemma BackedAlongSave(cfg: Config, s: Sys, a: Act)
    requires Can(cfg, s, a) && Backed(cfg, s) && (a.Open? || a.Write?)
    ensures Backed(cfg, Do(cfg, s, a))
  {
  }

  lemma BackedAlongRest(cfg: Config, s: Sys, a: Act)
    requires Can(cfg, s, a) && Backed(cfg, s)
    requires a.Sample? || a.Refresh? || a.Expire? || a.Pop? || a.Deleted? || a.PublishSet? || a.PublishCount?
    ensures Backed(cfg, Do(cfg, s, a))
  {
  }

  lemma BackedAlongDelete(cfg: Config, s: Sys, a: Act)
    requires Can(cfg, s, a) && Backed(cfg, s) && a.Delete?
    ensures Backed(cfg, Do(cfg, s, a))
  {
  }

  lemma BackedAlongPackets(cfg: Config, s: Sys, a: Act)
    requires Can(cfg, s, a) && Backed(cfg, s) && a.Kernel?
    ensures Backed(cfg, Do(cfg, s, a))
  {
    forall x | x in s.kern.black ensures x in Do(cfg, s, a).kern.black {
      StepKeepsBlack(s.kern, a.event, x);
    }
  }

  /** When restores succeed, the brain never tracks an address the kernel does not block, at any tick boundary. */
  lemma {:induction false} TrackedIsBlacklisted(cfg: Config, s: Sys, acts: seq<Act>)
    requires Legal(cfg, s, acts) && TickInv(cfg, s) && Backed(cfg, s)
    requires forall a :: a in acts && a.Reapply? ==> a.ok
    ensures Backed(cfg, Exec(cfg, s, acts))
    ensures var e := Exec(cfg, s, acts);
            e.phase.Idle? ==> forall x :: x in e.blocked && Reachable(cfg, x) ==> x in e.kern.black
    decreases |acts|
  {
    if acts != [] {
      assert acts[0] in acts;
      TickStep(cfg, s, acts[0]);
      BackedStep(cfg, s, acts[0]);
      TrackedIsBlacklisted(cfg, Do(cfg, s, acts[0]), acts[1..]);
    }
  }
}
