/**
 The ends of the chain: from the kernel's maps, key by key, to the brain's dump, and from the
 brain's table through a scrape to the dashboard's screen.
 */
module Observed {
  import opened Words
  import opened Pipeline
  import opened Lifecycle
  import BL = BlockLifetime
  import R = Recovery
  import T = Text
  import M = Metrics
  import D = Dashboard
  import W = MapWalk

  // ----- From the kernel's map to the brain's dump ---------------------------------------

  /** The addresses of one family with the given keys. */
  function Tagged(keys: set<nat>, v6: bool): set<Addr> {
    set k | k in keys :: if v6 then V6(k) else V4(k)
  }

  /**
   A walk of one family's blacklist, while packets put keys in and nothing is deleted, finds
   what the transition system allows a dump to find: all that was seen when the tick started,
   if the walk started later, and nothing that is not blocked when it ends.
   */
  lemma WalkGivesDump(s: Sys, v6: bool, res: map<nat, U32>, versions: seq<map<nat, U32>>, since: nat)
    requires since < |versions| && W.OnlyGrows(versions, since) && W.Sourced(res, versions, since)
    requires forall k :: W.Stays(k, versions, since) ==> k in res
    requires Family(s.hist.seen, v6) <= Tagged(versions[since].Keys, v6)
    requires Tagged(versions[|versions| - 1].Keys, v6) == Family(s.kern.black, v6)
    ensures WalkResult(s, v6, Tagged(res.Keys, v6))
  {
    W.GrowingWalk(res, versions, since);
    forall a | a in Tagged(versions[since].Keys, v6) ensures a in Tagged(res.Keys, v6) {
      var k :| k in versions[since].Keys && a == if v6 then V6(k) else V4(k);
      assert k in res.Keys;
    }
    forall a | a in Tagged(res.Keys, v6) ensures a in Tagged(versions[|versions| - 1].Keys, v6) {
      var k :| k in res.Keys && a == if v6 then V6(k) else V4(k);
      assert k in versions[|versions| - 1].Keys;
    }
  }

  // ----- From the brain's table to the screen --------------------------------------------

  /** Addresses as text: no two alike, and nothing in them that the exporter would have to escape. */
  ghost predicate Prints(name: Addr -> string) {
    (forall x :: D.Safe(name(x))) && forall x, y :: name(x) == name(y) ==> x == y
  }

  function Names(name: Addr -> string, xs: set<Addr>): set<string> {
    set x | x in xs :: name(x)
  }

  lemma {:induction false} AsManyNames(name: Addr -> string, xs: set<Addr>)
    requires Prints(name)
    ensures |Names(name, xs)| == |xs|
    decreases |xs|
  {
    if xs != {} {
      var x :| x in xs;
      AsManyNames(name, xs - {x});
      assert Names(name, xs) == Names(name, xs - {x}) + {name(x)};
    }
  }

  /** What the exporter is given: the brain's figures, and packet counts of its own. */
  function Exported(name: Addr -> string, s: Sys, packets: map<string, int>, exceeded: int): M.Snapshot {
    M.Snapshot(packets, Names(name, s.metrics.blockedSet), s.metrics.blockedCount,
               s.metrics.blockEvents, s.metrics.unblockEvents, exceeded)
  }

  /** What the dashboard makes of a scrape in state s. */
  function Seen(snapshot: M.Snapshot, metered: seq<string>, blocked: seq<string>): Option<D.Parsed>
    requires forall ip :: ip in metered ==> ip in snapshot.packets
  {
    D.ParseLines(D.NOTHING, T.SplitLines(T.Join(M.Lines(snapshot, metered, blocked) + [""])))
  }

  /**
   Between two ticks, after any run of packets, evictions, failed saves and deletes, crashes
   and restarts, the dashboard shows exactly the addresses in the brain's table, their number,
   and event counters that account for it.
   */
  lemma DashboardShowsTable(cfg: Config, s: Sys, acts: seq<Act>, name: Addr -> string, packets: map<string, int>, exceeded: int,
                            metered: seq<string>, blocked: seq<string>)
    requires Legal(cfg, s, acts) && BL.TickInv(cfg, s) && R.Conserved(s) && R.Published(s)
    requires Prints(name) && forall ip :: ip in packets ==> D.Safe(ip)
    requires var e := Exec(cfg, s, acts);
             && e.phase.Idle? && e.hist.ticks > 0
             && D.Lists(metered, packets.Keys) && D.Lists(blocked, Names(name, e.metrics.blockedSet))
    ensures var e := Exec(cfg, s, acts);
            var seen := Seen(Exported(name, e, packets, exceeded), metered, blocked);
            && seen.Some?
            && seen.value.blockedSet == Names(name, e.blocked.Keys)
            && seen.value.blockedCount == |seen.value.blockedSet|
            && seen.value.blockedCount == e.hist.loaded + seen.value.blockEvents - seen.value.unblockEvents - e.hist.failures
            && seen.value.packets == packets
  {
    var e := Exec(cfg, s, acts);
    R.CountersAddUp(cfg, s, acts);
    AsManyNames(name, e.blocked.Keys);
    D.RoundTrip(Exported(name, e, packets, exceeded), metered, blocked);
  }
}
