/**
 The per-CPU packet counter: each increment is a load and a later store, nothing is locked,
 and userspace sums the slots one after the other while packets go on arriving.
 */
module PerCpuCounter {
  import opened Words

  /** One slot per CPU, the value each CPU has loaded but not stored, and how often it has finished an increment. */
  datatype Cpus = Cpus(slots: seq<U64>, loaded: seq<Option<U64>>, done: seq<nat>)

  datatype Reader = Reader(next: nat, sum: nat)

  datatype Step = Load(cpu: nat) | Store(cpu: nat) | Read

  datatype Machine = Machine(cpus: Cpus, reader: Reader)

  predicate Enabled(m: Machine, s: Step) {
    && |m.cpus.loaded| == |m.cpus.slots| == |m.cpus.done|
    && match s
       case Load(c) => c < |m.cpus.slots| && m.cpus.loaded[c].None?
       case Store(c) => c < |m.cpus.slots| && m.cpus.loaded[c].Some?
       case Read => m.reader.next < |m.cpus.slots|
  }

  function Next(m: Machine, s: Step): Machine
    requires Enabled(m, s)
  {
    match s
    case Load(c) => m.(cpus := m.cpus.(loaded := m.cpus.loaded[c := Some(m.cpus.slots[c])]))
    case Store(c) =>
      m.(cpus := m.cpus.(
        slots := m.cpus.slots[c := Inc64(m.cpus.loaded[c].value)],
        loaded := m.cpus.loaded[c := None],
        done := m.cpus.done[c := m.cpus.done[c] + 1]))
    case Read => m.(reader := Reader(m.reader.next + 1, m.reader.sum + m.cpus.slots[m.reader.next]))
  }

  predicate Legal(m: Machine, steps: seq<Step>)
    decreases |steps|
  {
    steps == [] || (Enabled(m, steps[0]) && Legal(Next(m, steps[0]), steps[1..]))
  }

  function Run(m: Machine, steps: seq<Step>): Machine
    requires Legal(m, steps)
    decreases |steps|
  {
    if steps == [] then m else Run(Next(m, steps[0]), steps[1..])
  }

  function Stores(steps: seq<Step>, cpu: nat): nat {
    if steps == [] then 0 else (if steps[0] == Store(cpu) then 1 else 0) + Stores(steps[1..], cpu)
  }

  /** Every CPU's slot holds its initial value and all its finished increments; a loaded value is still current. */
  ghost predicate Counted(m: Machine, init: seq<nat>) {
    && |m.cpus.slots| == |m.cpus.loaded| == |m.cpus.done| == |init|
    && (forall c :: 0 <= c < |init| ==> m.cpus.slots[c] == (init[c] + m.cpus.done[c]) % 0x1_0000_0000_0000_0000)
    && (forall c :: 0 <= c < |init| && m.cpus.loaded[c].Some? ==> m.cpus.loaded[c].value == m.cpus.slots[c])
  }

  lemma CountedStep(m: Machine, s: Step, init: seq<nat>)
    requires Enabled(m, s) && Counted(m, init)
    ensures Counted(Next(m, s), init)
  {
    if s.Store? {
      WrapAdd64(init[s.cpu] + m.cpus.done[s.cpu], 1);
    }
  }

  /** No interleaving of loads and stores loses an increment: each CPU owns its slot. */
  lemma {:induction false} NoIncrementIsLost(m: Machine, steps: seq<Step>, init: seq<nat>)
    requires Legal(m, steps) && Counted(m, init)
    ensures var m' := Run(m, steps);
            && Counted(m', init)
            && (forall c :: 0 <= c < |init| ==> m'.cpus.done[c] == m.cpus.done[c] + Stores(steps, c))
    decreases |steps|
  {
    if steps != [] {
      CountedStep(m, steps[0], init);
      NoIncrementIsLost(Next(m, steps[0]), steps[1..], init);
    }
  }

  /** The loads and stores of one CPU take turns; `loaded` says whether a store is next. */
  predicate TakesTurns(steps: seq<Step>, cpu: nat, loaded: bool) {
    steps == []
    || match steps[0]
       case Load(c) => if c == cpu then !loaded && TakesTurns(steps[1..], cpu, true) else TakesTurns(steps[1..], cpu, loaded)
       case Store(c) => if c == cpu then loaded && TakesTurns(steps[1..], cpu, false) else TakesTurns(steps[1..], cpu, loaded)
       case Read => TakesTurns(steps[1..], cpu, loaded)
  }

  function Reads(steps: seq<Step>): nat {
    if steps == [] then 0 else (if steps[0].Read? then 1 else 0) + Reads(steps[1..])
  }

  /** All CPUs take turns, and no slot is read that is not there. */
  ghost predicate Interleaves(m: Machine, steps: seq<Step>) {
    var n := |m.cpus.slots|;
    && |m.cpus.loaded| == n
    && (forall s :: s in steps && !s.Read? ==> s.cpu < n)
    && (Reads(steps) == 0 || m.reader.next + Reads(steps) <= n)
    && forall c: nat :: c < n ==> TakesTurns(steps, c, m.cpus.loaded[c].Some?)
  }

  /** Nothing else restricts a run: every interleaving of the CPUs' own sequences is one. */
  lemma {:induction false} LegalIff(m: Machine, steps: seq<Step>)
    requires |m.cpus.loaded| == |m.cpus.slots| == |m.cpus.done|
    ensures Legal(m, steps) <==> Interleaves(m, steps)
    decreases |steps|
  {
    if steps != [] {
      FirstStep(m, steps);
      if Enabled(m, steps[0]) {
        LegalIff(Next(m, steps[0]), steps[1..]);
      }
    }
  }

  lemma FirstStep(m: Machine, steps: seq<Step>)
    requires |m.cpus.loaded| == |m.cpus.slots| == |m.cpus.done| && steps != []
    ensures Interleaves(m, steps) <==> Enabled(m, steps[0]) && Interleaves(Next(m, steps[0]), steps[1..])
  {
    var s, n := steps[0], |m.cpus.slots|;
    assert forall d :: d in steps <==> d == s || d in steps[1..];
    if Interleaves(m, steps) && !s.Read? {
      assert TakesTurns(steps, s.cpu, m.cpus.loaded[s.cpu].Some?);
    }
    if Enabled(m, s) {
      var m' := Next(m, s);
      forall c: nat | c < n
        ensures TakesTurns(steps, c, m.cpus.loaded[c].Some?) <==> TakesTurns(steps[1..], c, m'.cpus.loaded[c].Some?)
      {
      }
    }
  }

  // ----- Reading while counting goes on --------------------------------------------------

  function Sum(s: seq<nat>): nat {
    if s == [] then 0 else Sum(s[..|s| - 1]) + s[|s| - 1]
  }

  /** The true count of each CPU, which its slot shows as long as nothing has wrapped. */
  function Truth(m: Machine, init: seq<nat>): seq<nat>
    requires |m.cpus.done| == |init|
  {
    seq(|init|, c requires 0 <= c < |init| => init[c] + m.cpus.done[c])
  }

  ghost predicate BelowEach(s: seq<nat>, t: seq<nat>) {
    |s| == |t| && forall i :: 0 <= i < |s| ==> s[i] <= t[i]
  }

  lemma {:induction false} SumMonotone(s: seq<nat>, t: seq<nat>)
    requires BelowEach(s, t)
    ensures Sum(s) <= Sum(t)
    decreases |s|
  {
    if s != [] {
      SumMonotone(s[..|s| - 1], t[..|t| - 1]);
    }
  }

  /** What has been read lies between the true counts of the slots read, then and now. */
  ghost predicate Bracketed(m: Machine, init: seq<nat>, start: seq<nat>) {
    && Counted(m, init) && m.reader.next <= |init| && BelowEach(start, Truth(m, init))
    && Sum(start[..m.reader.next]) <= m.reader.sum <= Sum(Truth(m, init)[..m.reader.next])
  }

  ghost predicate NoWrap(m: Machine, init: seq<nat>) {
    |m.cpus.done| == |init| && forall c :: 0 <= c < |init| ==> init[c] + m.cpus.done[c] < TWO64
  }

  lemma BracketedStep(m: Machine, s: Step, init: seq<nat>, start: seq<nat>)
    requires Enabled(m, s) && Bracketed(m, init, start) && NoWrap(m, init)
    ensures Bracketed(Next(m, s), init, start)
  {
    CountedStep(m, s, init);
    var m', n := Next(m, s), m.reader.next;
    var truth, truth' := Truth(m, init), Truth(m', init);
    assert BelowEach(truth[..n], truth'[..n]);
    SumMonotone(truth[..n], truth'[..n]);
    if s.Read? {
      assert truth' == truth;
      assert start[..n + 1][..n] == start[..n] && truth[..n + 1][..n] == truth[..n];
      assert truth[n] == init[n] + m.cpus.done[n];
      assert m.cpus.slots[n] == truth[n];
    }
  }

  lemma {:induction false} BracketedRun(m: Machine, steps: seq<Step>, init: seq<nat>, start: seq<nat>)
    requires Legal(m, steps) && Bracketed(m, init, start) && NoWrap(Run(m, steps), init)
    ensures Bracketed(Run(m, steps), init, start)
    decreases |steps|
  {
    NoIncrementIsLost(m, steps, init);
    assert forall c :: 0 <= c < |init| ==> m.cpus.done[c] <= Run(m, steps).cpus.done[c];
    if steps != [] {
      BracketedStep(m, steps[0], init, start);
      BracketedRun(Next(m, steps[0]), steps[1..], init, start);
    }
  }

  /** A sum taken slot by slot is at least the true total when it began and at most the true total when it ended. */
  lemma SumIsBetweenTotals(m: Machine, steps: seq<Step>, init: seq<nat>)
    requires Legal(m, steps) && Counted(m, init) && m.reader == Reader(0, 0)
    requires var m' := Run(m, steps); m'.reader.next == |init| && NoWrap(m', init)
    ensures Sum(Truth(m, init)) <= Run(m, steps).reader.sum
    ensures |Run(m, steps).cpus.done| == |init| && Run(m, steps).reader.sum <= Sum(Truth(Run(m, steps), init))
  {
    var start := Truth(m, init);
    assert start[..0] == [];
    BracketedRun(m, steps, init, start);
    var m' := Run(m, steps);
    assert start[..|init|] == start && Truth(m', init)[..|init|] == Truth(m', init);
  }
}
