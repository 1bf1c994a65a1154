/** The metrics the brain publishes and their Prometheus text form. */
module Metrics {
  import opened Text

  datatype Snapshot = Snapshot(
    packets: map<string, int>,
    blockedSet: set<string>,
    blocked: int,
    blockEvents: int,
    unblockEvents: int,
    globalPpsExceeded: int)

  // ----- The exposition format -----------------------------------------------------------

  const METER := "fluxguard_meter_packets{ip="
  const BLOCKED_IPS := "fluxguard_blocked_ips "
  const BLOCKED_IP := "fluxguard_blocked_ip{ip="
  const BLOCK_EVENTS := "fluxguard_block_events_total "
  const UNBLOCK_EVENTS := "fluxguard_unblock_events_total "
  const EXCEEDED := "fluxguard_global_pps_exceeded_total "

  const METER_HELP := "Current packet counter per source IP " + "(IPv4 or IPv6) from meter_maps."
  const BLOCKED_HELP := "Per-IP block status (1 = currently " + "blocked, supports IPv4/IPv6)."
  const COUNT_HELP := "Number of IPs currently " + "blocked by the brain."

  function Escape(ip: string): string {
    Replace(Replace(ip, '\\', "\\\\"), '"', "\\\"")
  }

  function MeterLine(ip: string, count: int): string {
    METER + "\"" + (Escape(ip) + "\"} ") + Print(count)
  }

  function BlockedLine(ip: string): string {
    BLOCKED_IP + "\"" + (Escape(ip) + "\"} 1")
  }

  function MeterLines(packets: map<string, int>, ips: seq<string>): (lines: seq<string>)
    requires forall ip :: ip in ips ==> ip in packets
    ensures |lines| == |ips| && forall i :: 0 <= i < |ips| ==> lines[i] == MeterLine(ips[i], packets[ips[i]])
  {
    seq(|ips|, i requires 0 <= i < |ips| => MeterLine(ips[i], packets[ips[i]]))
  }

  function BlockedLines(ips: seq<string>): (lines: seq<string>)
    ensures |lines| == |ips| && forall i :: 0 <= i < |ips| ==> lines[i] == BlockedLine(ips[i])
  {
    seq(|ips|, i requires 0 <= i < |ips| => BlockedLine(ips[i]))
  }

  /** The two comments above a metric. */
  function Comments(name: string, help: string, kind: string): seq<string> {
    ["# HELP " + (name + " " + help), "# TYPE " + (name + " " + kind)]
  }

  function MeterHeader(): seq<string> {
    Comments("fluxguard_meter_packets", METER_HELP, "gauge")
  }

  function BlockedHeader(): seq<string> {
    Comments("fluxguard_blocked_ip", BLOCKED_HELP, "gauge")
  }

  function CountLines(blocked: int): seq<string> {
    Comments("fluxguard_blocked_ips", COUNT_HELP, "gauge") + [BLOCKED_IPS + Print(blocked)]
  }

  function EventLines(s: Snapshot): seq<string> {
    Comments("fluxguard_block_events_total", "Cumulative block events.", "counter")
    + [BLOCK_EVENTS + Print(s.blockEvents)]
    + Comments("fluxguard_unblock_events_total", "Cumulative unblock events.", "counter")
    + [UNBLOCK_EVENTS + Print(s.unblockEvents)]
    + Comments("fluxguard_global_pps_exceeded_total", "Global Shields-Up events triggered.", "counter")
    + [EXCEEDED + Print(s.globalPpsExceeded)]
  }

  /** All lines of a scrape, the addresses in the orders given. */
  function Lines(s: Snapshot, metered: seq<string>, blocked: seq<string>): seq<string>
    requires forall ip :: ip in metered ==> ip in s.packets
  {
    MeterHeader() + MeterLines(s.packets, metered) + CountLines(s.blocked)
    + (if blocked == [] then [] else BlockedHeader() + BlockedLines(blocked)) + EventLines(s)
  }

  // ----- Sorted order --------------------------------------------------------------------

  /** Strings compared by code point, as Python does. */
  predicate LexLe(a: string, b: string) {
    a == "" || (b != "" && (a[0] < b[0] || (a[0] == b[0] && LexLe(a[1..], b[1..]))))
  }

  lemma {:induction false} LexTotal(a: string, b: string)
    ensures LexLe(a, b) || LexLe(b, a)
  {
    if a != "" && b != "" {
      LexTotal(a[1..], b[1..]);
    }
  }

  lemma {:induction false} LexTransitive(a: string, b: string, c: string)
    requires LexLe(a, b) && LexLe(b, c)
    ensures LexLe(a, c)
  {
    if a != "" && b != "" && c != "" && a[0] == b[0] == c[0] {
      LexTransitive(a[1..], b[1..], c[1..]);
    }
  }

  /** The elements of `keys`, each once, in order. */
  ghost predicate SortedList(list: seq<string>, keys: set<string>) {
    && (forall k :: k in list <==> k in keys)
    && (forall i, j :: 0 <= i < j < |list| ==> list[i] != list[j] && LexLe(list[i], list[j]))
  }

  /** sorted() of a set of strings. */
  method Sorted(keys: set<string>) returns (list: seq<string>)
    ensures SortedList(list, keys)
  {
    list := [];
    var rest := keys;
    while rest != {}
      invariant rest <= keys && SortedList(list, keys - rest)
      decreases rest
    {
      var k :| k in rest;
      rest := rest - {k};
      list := Insert(list, k, keys - rest - {k});
      assert keys - rest - {k} + {k} == keys - rest;
    }
  }

  method Insert(list: seq<string>, k: string, ghost keys: set<string>) returns (longer: seq<string>)
    requires SortedList(list, keys) && k !in keys
    ensures SortedList(longer, keys + {k})
  {
    var i := 0;
    while i < |list| && LexLe(list[i], k)
      invariant 0 <= i <= |list|
      invariant forall j :: 0 <= j < i ==> LexLe(list[j], k)
    {
      i := i + 1;
    }
    forall j | i <= j < |list| ensures LexLe(k, list[j]) {
      LexTotal(list[i], k);
      if i < j {
        LexTransitive(k, list[i], list[j]);
      }
    }
    longer := list[..i] + [k] + list[i..];
  }

  // ----- The shared state ----------------------------------------------------------------

  class MetricsState {
    var packetsByIp: map<string, int>
    var blockedIpsSet: set<string>
    var blockedIps: int
    var blockEvents: int
    var unblockEvents: int
    var globalPpsExceeded: int

    constructor ()
      ensures Value() == Snapshot(map[], {}, 0, 0, 0, 0)
    {
      packetsByIp, blockedIpsSet, blockedIps := map[], {}, 0;
      blockEvents, unblockEvents, globalPpsExceeded := 0, 0, 0;
    }

    function Value(): Snapshot
      reads this
    {
      Snapshot(packetsByIp, blockedIpsSet, blockedIps, blockEvents, unblockEvents, globalPpsExceeded)
    }

    method UpdateSnapshot(packets: map<string, int>, blocked: int)
      modifies this
      ensures Value() == old(Value()).(packets := packets, blocked := blocked)
    {
      packetsByIp, blockedIps := packets, blocked;
    }

    method UpdateBlockedSet(blockedSet: set<string>)
      modifies this
      ensures Value() == old(Value()).(blockedSet := blockedSet)
    {
      blockedIpsSet := blockedSet;
    }

    method IncBlockEvents()
      modifies this
      ensures Value() == old(Value()).(blockEvents := old(Value()).blockEvents + 1)
    {
      blockEvents := blockEvents + 1;
    }

    method IncUnblockEvents()
      modifies this
      ensures Value() == old(Value()).(unblockEvents := old(Value()).unblockEvents + 1)
    {
      unblockEvents := unblockEvents + 1;
    }

    method IncGlobalPpsExceeded()
      modifies this
      ensures Value() == old(Value()).(globalPpsExceeded := old(Value()).globalPpsExceeded + 1)
    {
      globalPpsExceeded := globalPpsExceeded + 1;
    }

    method RenderPrometheusText() returns (text: string, ghost metered: seq<string>, ghost blocked: seq<string>)
      ensures SortedList(metered, Value().packets.Keys) && SortedList(blocked, Value().blockedSet)
      ensures text == Join(Lines(Value(), metered, blocked) + [""])
    {
      var packets := Sorted(packetsByIp.Keys);
      var blockedSet := Sorted(blockedIpsSet);
      metered, blocked := packets, blockedSet;
      var meterLines := RenderPackets(packets);
      var lines := MeterHeader() + meterLines + CountLines(blockedIps);
      if blockedSet != [] {
        var blockedLines := RenderBlocked(blockedSet);
        lines := lines + (BlockedHeader() + blockedLines);
      }
      lines := lines + EventLines(Value());
      assert lines == Lines(Value(), metered, blocked);
      text := Join(lines + [""]);
    }

    method RenderPackets(packets: seq<string>) returns (lines: seq<string>)
      requires forall ip :: ip in packets ==> ip in packetsByIp
      ensures lines == MeterLines(packetsByIp, packets)
    {
      lines := [];
      for i := 0 to |packets|
        invariant lines == MeterLines(packetsByIp, packets)[..i]
      {
        lines := lines + [MeterLine(packets[i], packetsByIp[packets[i]])];
      }
    }

    method RenderBlocked(blockedSet: seq<string>) returns (lines: seq<string>)
      ensures lines == BlockedLines(blockedSet)
    {
      lines := [];
      for i := 0 to |blockedSet|
        invariant lines == BlockedLines(blockedSet)[..i]
      {
        lines := lines + [BlockedLine(blockedSet[i])];
      }
    }
  }
}
