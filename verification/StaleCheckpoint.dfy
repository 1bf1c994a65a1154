/**
 Why Recovery asks that saves get to open the file: a run from boot, without a checkpoint to
 begin with, in which two saves cannot open it and a restarted brain takes down a block thirty
 time units before its deadline.
 */
module StaleCheckpoint {
  import opened Words
  import opened Pipeline
  import opened Lifecycle
  import Recovery

  const SETTINGS := Config(30, 5, true)

  /** Between two ticks, with an empty allowlist and nothing in the kernel but the blacklist. */
  predicate Resting(s: Sys, black: set<Addr>, clock: U64, disk: Disk, blocked: Deadlines) {
    && s.phase.Idle? && s.kern == EMPTY.(black := black) && s.clock == clock && s.disk == disk
    && s.blocked == blocked && s.cache == {} && s.cacheTime == 0
  }

  /** In a tick started at `time`, which has put x into the table with a new deadline. */
  predicate Recorded(s: Sys, x: Addr, time: U64, disk: Disk, phase: Phase) {
    && s.phase == phase && s.kern == EMPTY.(black := {x}) && s.clock == s.now == time && s.disk == disk
    && s.blocked == map[x := time + 30] && s.cache == {} && s.cacheTime == 0
  }

  lemma Unfold(cfg: Config, s: Sys, acts: seq<Act>, i: nat)
    requires i < |acts| && Can(cfg, s, acts[i]) && Legal(cfg, Do(cfg, s, acts[i]), acts[i + 1..])
    ensures Legal(cfg, s, acts[i..])
    ensures Exec(cfg, s, acts[i..]) == Exec(cfg, Do(cfg, s, acts[i]), acts[i + 1..])
  {
    assert acts[i..][1..] == acts[i + 1..];
  }

  // ----- The steps -----------------------------------------------------------------------

  const START := [Start, Ready]

  lemma Starts(boot: Sys, x: Addr)
    requires boot.phase.Down? && boot.kern == EMPTY.(black := {x}) && boot.clock == 0 && boot.disk == NoFile
    ensures Legal(SETTINGS, boot, START) && Resting(Exec(SETTINGS, boot, START), {x}, 0, NoFile, map[])
  {
    var s := Do(SETTINGS, boot, Start);
    assert s.phase == Restoring({});
    Unfold(SETTINGS, s, START, 1);
    Unfold(SETTINGS, boot, START, 0);
    assert START[0..] == START;
  }

  /** A tick begins: the allowlist cannot be read, and neither can the IPv6 blacklist. */
  function Begin(time: U64, found: Option<set<Addr>>): seq<Act> {
    [Sample(time), Refresh(false, false), Dump4(found)]
  }

  lemma Begins(s: Sys, k: nat, clock: U64, time: U64, disk: Disk, blocked: Deadlines, found: Option<set<Addr>>)
    requires Resting(s, {V4(k)}, clock, disk, blocked) && clock <= time && found in {None, Some({V4(k)})}
    ensures Legal(SETTINGS, s, Begin(time, found))
    ensures var e := Exec(SETTINGS, s, Begin(time, found));
            && e.phase == (if found.None? then Tracking({}) else Dumping6) && (found.Some? ==> e.hist.dump == found.value)
            && e.kern == s.kern && e.clock == e.now == time && e.disk == disk
            && e.blocked == blocked && e.cache == {} && e.cacheTime == 0
  {
    var acts := Begin(time, found);
    var s1 := Do(SETTINGS, s, Sample(time));
    var s2 := Do(SETTINGS, s1, Refresh(false, false));
    assert s2.cache == {};
    Unfold(SETTINGS, s2, acts, 2);
    Unfold(SETTINGS, s1, acts, 1);
    Unfold(SETTINGS, s, acts, 0);
    assert acts[0..] == acts;
  }

  function Record(x: Addr): seq<Act> {
    [Dump6(None), Track(x)]
  }

  lemma Records(s: Sys, x: Addr, time: U64, disk: Disk)
    requires s.phase.Dumping6? && s.hist.dump == {x} && s.kern == EMPTY.(black := {x}) && s.clock == s.now == time
    requires s.disk == disk && s.blocked == map[] && s.cache == {} && s.cacheTime == 0
    ensures Legal(SETTINGS, s, Record(x)) && Recorded(Exec(SETTINGS, s, Record(x)), x, time, disk, Saving({}, false))
  {
    var acts := Record(x);
    var s1 := Do(SETTINGS, s, Dump6(None));
    Unfold(SETTINGS, s1, acts, 1);
    Unfold(SETTINGS, s, acts, 0);
    assert acts[0..] == acts;
  }

  function Save(works: bool): seq<Act> {
    if works then [Open(true), Write(true)] else [Open(false)]
  }

  lemma Saves(s: Sys, x: Addr, time: U64, disk: Disk, works: bool)
    requires Recorded(s, x, time, disk, Saving({}, false))
    ensures Legal(SETTINGS, s, Save(works))
    ensures Recorded(Exec(SETTINGS, s, Save(works)), x, time, if works then Saved(map[x := time + 30]) else disk, Tracking({}))
  {
    var acts := Save(works);
    if works {
      Unfold(SETTINGS, Do(SETTINGS, s, Open(true)), acts, 1);
    }
    Unfold(SETTINGS, s, acts, 0);
    assert acts[0..] == acts;
  }

  const FINISH := [Expire, PublishSet, PublishCount]

  lemma Finishes(s: Sys, x: Addr, time: U64, disk: Disk)
    requires Recorded(s, x, time, disk, Tracking({}))
    ensures Legal(SETTINGS, s, FINISH)
    ensures Resting(Exec(SETTINGS, s, FINISH), {x}, time, disk, map[x := time + 30])
  {
    assert Expired(s.blocked, s.now) == {};
    var s1 := Do(SETTINGS, s, Expire);
    var s2 := Do(SETTINGS, s1, PublishSet);
    Unfold(SETTINGS, s2, FINISH, 2);
    Unfold(SETTINGS, s1, FINISH, 1);
    Unfold(SETTINGS, s, FINISH, 0);
    assert FINISH[0..] == FINISH;
  }

  function Unblocking(x: Addr): seq<Act> {
    [Expire, Delete(x, true)]
  }

  lemma Unblocks(s: Sys, x: Addr, time: U64, disk: Disk, deadline: int)
    requires s.phase == Tracking({}) && s.kern == EMPTY.(black := {x}) && s.clock == s.now == time && deadline <= time
    requires s.disk == disk && s.blocked == map[x := deadline] && s.cache == {} && s.cacheTime == 0
    ensures Legal(SETTINGS, s, Unblocking(x))
    ensures var e := Exec(SETTINGS, s, Unblocking(x));
            && e.phase == Popping(x, {}) && e.kern == EMPTY && e.clock == time && e.disk == disk
            && e.blocked == map[x := deadline] && e.cache == {} && e.cacheTime == 0
  {
    var acts := Unblocking(x);
    assert Expired(s.blocked, s.now) == {x};
    var s1 := Do(SETTINGS, s, Expire);
    assert Do(SETTINGS, s1, Delete(x, true)).kern.black == {};
    Unfold(SETTINGS, s1, acts, 1);
    Unfold(SETTINGS, s, acts, 0);
    assert acts[0..] == acts;
  }

  const FORGET := [Pop, Deleted]

  function Remove(x: Addr): seq<Act> {
    Unblocking(x) + FORGET
  }

  lemma Removes(s: Sys, x: Addr, time: U64, disk: Disk, deadline: int)
    requires s.phase == Tracking({}) && s.kern == EMPTY.(black := {x}) && s.clock == s.now == time && deadline <= time
    requires s.disk == disk && s.blocked == map[x := deadline] && s.cache == {} && s.cacheTime == 0
    ensures Legal(SETTINGS, s, Remove(x))
    ensures var e := Exec(SETTINGS, s, Remove(x));
            && e.phase == Saving({}, true) && e.kern == EMPTY && e.clock == time && e.disk == disk
            && e.blocked == map[] && e.cache == {} && e.cacheTime == 0
  {
    Unblocks(s, x, time, disk, deadline);
    var s2 := Exec(SETTINGS, s, Unblocking(x));
    Unfold(SETTINGS, Do(SETTINGS, s2, Pop), FORGET, 1);
    Unfold(SETTINGS, s2, FORGET, 0);
    assert FORGET[0..] == FORGET;
    ExecAppend(SETTINGS, s, Unblocking(x), FORGET);
  }

  const PUBLISH := [Open(false), PublishSet, PublishCount]

  lemma Publishes(s: Sys, time: U64, disk: Disk)
    requires s.phase == Saving({}, true) && s.kern == EMPTY && s.clock == time && s.disk == disk
    requires s.blocked == map[] && s.cache == {} && s.cacheTime == 0
    ensures Legal(SETTINGS, s, PUBLISH) && Resting(Exec(SETTINGS, s, PUBLISH), {}, time, disk, map[])
  {
    var s1 := Do(SETTINGS, s, Open(false));
    var s2 := Do(SETTINGS, s1, PublishSet);
    Unfold(SETTINGS, s2, PUBLISH, 2);
    Unfold(SETTINGS, s1, PUBLISH, 1);
    Unfold(SETTINGS, s, PUBLISH, 0);
    assert PUBLISH[0..] == PUBLISH;
  }

  /** The save that should clear the file cannot open it, and the kernel blocks x again. */
  function Reblock(x: Addr, time: U64): seq<Act> {
    PUBLISH + [Kernel(At(time, Block(x)))]
  }

  lemma Reblocks(s: Sys, x: Addr, time: U64, disk: Disk)
    requires s.phase == Saving({}, true) && s.kern == EMPTY && s.clock == time && s.disk == disk
    requires s.blocked == map[] && s.cache == {} && s.cacheTime == 0
    ensures Legal(SETTINGS, s, Reblock(x, time)) && Resting(Exec(SETTINGS, s, Reblock(x, time)), {x}, time, disk, map[])
  {
    Publishes(s, time, disk);
    var again := [Kernel(At(time, Block(x)))];
    assert Step(EMPTY, At(time, Block(x))) == EMPTY.(black := {x});
    Unfold(SETTINGS, Exec(SETTINGS, s, PUBLISH), again, 0);
    assert again[0..] == again;
    ExecAppend(SETTINGS, s, PUBLISH, again);
  }

  function Restart(x: Addr): seq<Act> {
    [Crash, Start, Reapply(x, true), Ready]
  }

  lemma Restarts(s: Sys, x: Addr, time: U64, deadline: int)
    requires !s.phase.Down? && s.kern == EMPTY.(black := {x}) && s.clock == time && s.disk == Saved(map[x := deadline])
    ensures Legal(SETTINGS, s, Restart(x))
    ensures Resting(Exec(SETTINGS, s, Restart(x)), {x}, time, Saved(map[x := deadline]), map[x := deadline])
  {
    var acts := Restart(x);
    var s1 := Do(SETTINGS, s, Crash);
    var s2 := Do(SETTINGS, s1, Start);
    assert s2.phase == Restoring({x});
    var s3 := Do(SETTINGS, s2, Reapply(x, true));
    assert s3.phase == Restoring({}) && s3.kern.black == {x};
    Unfold(SETTINGS, s3, acts, 3);
    Unfold(SETTINGS, s2, acts, 2);
    Unfold(SETTINGS, s1, acts, 1);
    Unfold(SETTINGS, s, acts, 0);
    assert acts[0..] == acts;
  }

  // ----- The run -------------------------------------------------------------------------

  /** A tick that finds x and records it, with a save that works or does not. */
  function FindingTick(x: Addr, time: U64, works: bool): seq<Act> {
    Begin(time, Some({x})) + Record(x) + Save(works) + FINISH
  }

  lemma FindsAndRecords(s: Sys, k: nat, clock: U64, time: U64, disk: Disk, works: bool)
    requires Resting(s, {V4(k)}, clock, disk, map[]) && clock <= time
    ensures var x, acts := V4(k), FindingTick(V4(k), time, works);
            && Legal(SETTINGS, s, acts)
            && Resting(Exec(SETTINGS, s, acts), {x}, time, if works then Saved(map[x := time + 30]) else disk,
                       map[x := time + 30])
  {
    var x := V4(k);
    var a, b, c := Begin(time, Some({x})), Record(x), Save(works);
    Begins(s, k, clock, time, disk, map[], Some({x}));
    Records(Exec(SETTINGS, s, a), x, time, disk);
    ExecAppend(SETTINGS, s, a, b);
    Saves(Exec(SETTINGS, s, a + b), x, time, disk, works);
    ExecAppend(SETTINGS, s, a + b, c);
    Finishes(Exec(SETTINGS, s, a + b + c), x, time, if works then Saved(map[x := time + 30]) else disk);
    ExecAppend(SETTINGS, s, a + b + c, FINISH);
  }

  /** A tick that takes x down, as far as its last save. */
  function RemovingTick(x: Addr, time: U64): seq<Act> {
    Begin(time, None) + Remove(x)
  }

  lemma TakesDown(s: Sys, k: nat, clock: U64, time: U64, disk: Disk, deadline: int)
    requires Resting(s, {V4(k)}, clock, disk, map[V4(k) := deadline]) && clock <= time && deadline <= time
    ensures Legal(SETTINGS, s, RemovingTick(V4(k), time))
    ensures var e := Exec(SETTINGS, s, RemovingTick(V4(k), time));
            && e.phase == Saving({}, true) && e.kern == EMPTY && e.clock == time && e.disk == disk
            && e.blocked == map[] && e.cache == {} && e.cacheTime == 0
  {
    var x := V4(k);
    Begins(s, k, clock, time, disk, map[x := deadline], None);
    Removes(Exec(SETTINGS, s, Begin(time, None)), x, time, disk, deadline);
    ExecAppend(SETTINGS, s, Begin(time, None), Remove(x));
  }

  /** x is recorded at 10 and saved, taken down at 40, blocked again and recorded at 41; the last two saves fail. */
  function Life(x: Addr): seq<Act> {
    START + FindingTick(x, 10, true) + RemovingTick(x, 40) + Reblock(x, 40) + FindingTick(x, 41, false)
  }

  lemma LifeLeavesStaleFile(boot: Sys, k: nat)
    requires boot.phase.Down? && boot.kern == EMPTY.(black := {V4(k)}) && boot.clock == 0 && boot.disk == NoFile
    ensures Legal(SETTINGS, boot, Life(V4(k)))
    ensures var x := V4(k); Resting(Exec(SETTINGS, boot, Life(x)), {x}, 41, Saved(map[x := 40]), map[x := 71])
  {
    var x := V4(k);
    var file := Saved(map[x := 40]);
    var a, b, c, d := FindingTick(x, 10, true), RemovingTick(x, 40), Reblock(x, 40), FindingTick(x, 41, false);
    Starts(boot, x);
    FindsAndRecords(Exec(SETTINGS, boot, START), k, 0, 10, NoFile, true);
    ExecAppend(SETTINGS, boot, START, a);
    TakesDown(Exec(SETTINGS, boot, START + a), k, 10, 40, file, 40);
    ExecAppend(SETTINGS, boot, START + a, b);
    Reblocks(Exec(SETTINGS, boot, START + a + b), x, 40, file);
    ExecAppend(SETTINGS, boot, START + a + b, c);
    FindsAndRecords(Exec(SETTINGS, boot, START + a + b + c), k, 40, 41, file, false);
    ExecAppend(SETTINGS, boot, START + a + b + c, d);
  }

  /**
   Without the condition on the saves a block can be taken down early: after that life x is
   blocked until 71, the process crashes, and the next one takes it down at 41.
   */
  lemma StaleCheckpointUnblocksEarly(boot: Sys, k: nat)
    requires Recovery.Boot(SETTINGS, boot) && boot.kern == EMPTY.(black := {V4(k)}) && boot.clock == 0 && boot.disk == NoFile
    ensures Legal(SETTINGS, boot, Life(V4(k)))
    ensures var s := Exec(SETTINGS, boot, Life(V4(k)));
            && V4(k) in s.kern.black && s.blocked == map[V4(k) := 71]
            && var acts := Restart(V4(k)) + RemovingTick(V4(k), 41);
               && Legal(SETTINGS, s, acts)
               && Exec(SETTINGS, s, acts).clock == 41 && V4(k) !in Exec(SETTINGS, s, acts).kern.black
  {
    LifeLeavesStaleFile(boot, k);
    var s := Exec(SETTINGS, boot, Life(V4(k)));
    Restarts(s, V4(k), 41, 40);
    TakesDown(Exec(SETTINGS, s, Restart(V4(k))), k, 41, 41, Saved(map[V4(k) := 40]), 40);
    ExecAppend(SETTINGS, s, Restart(V4(k)), RemovingTick(V4(k), 41));
  }
}
