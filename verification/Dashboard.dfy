/** The dashboard's reading of a scrape, and the proof that it inverts the exporter. */
module Dashboard {
  import opened Words
  import opened Text
  import opened Metrics

  datatype Parsed = Parsed(
    packets: map<string, int>,
    blockedSet: set<string>,
    blockedCount: int,
    blockEvents: int,
    unblockEvents: int,
    shieldsUp: int)

  const NOTHING := Parsed(map[], {}, 0, 0, 0, 0)

  /** One line added to the figures so far; None is an exception. */
  function ParseLine(acc: Parsed, line: string): Option<Parsed> {
    if METER + "\"" <= line then
      var ip, n := Quoted(line), ParseInt(LastField(line));
      if ip.None? || n.None? then None else Some(acc.(packets := acc.packets[ip.value := n.value]))
    else if BLOCKED_IPS <= line then
      var n := ParseInt(LastField(line));
      if n.None? then None else Some(acc.(blockedCount := n.value))
    else if BLOCK_EVENTS <= line then
      var n := ParseInt(LastField(line));
      if n.None? then None else Some(acc.(blockEvents := n.value))
    else if UNBLOCK_EVENTS <= line then
      var n := ParseInt(LastField(line));
      if n.None? then None else Some(acc.(unblockEvents := n.value))
    else if EXCEEDED <= line then
      var n := ParseInt(LastField(line));
      if n.None? then None else Some(acc.(shieldsUp := n.value))
    else if BLOCKED_IP + "\"" <= line then
      var ip := Quoted(line);
      if ip.None? then None else Some(acc.(blockedSet := acc.blockedSet + {ip.value}))
    else Some(acc)
  }

  function ParseLines(acc: Parsed, lines: seq<string>): Option<Parsed>
    decreases |lines|
  {
    if lines == [] then Some(acc)
    else match ParseLine(acc, lines[0])
         case None => None
         case Some(next) => ParseLines(next, lines[1..])
  }

  method ParseMetrics(text: string) returns (result: Option<Parsed>)
    ensures result == ParseLines(NOTHING, SplitLines(text))
  {
    var acc, lines := NOTHING, SplitLines(text);
    var i := 0;
    while i < |lines|
      invariant 0 <= i <= |lines|
      invariant ParseLines(NOTHING, lines) == ParseLines(acc, lines[i..])
    {
      var next := ParseLine(acc, lines[i]);
      if next.None? {
        return None;
      }
      acc, i := next.value, i + 1;
    }
    return Some(acc);
  }

  // ----- Lines are told apart by their prefixes ------------------------------------------

  /** Texts that differ from a prefix at some position do not start with it. */
  lemma NotPrefix(p: string, line: string, i: nat)
    requires i < |p| && i < |line| && p[i] != line[i]
    ensures !(p <= line)
  {
  }

  lemma CommentIsSkipped(acc: Parsed, line: string)
    requires line != "" && line[0] == '#'
    ensures ParseLine(acc, line) == Some(acc)
  {
    NotPrefix(METER + "\"", line, 0);
    NotPrefix(BLOCKED_IPS, line, 0);
    NotPrefix(BLOCK_EVENTS, line, 0);
    NotPrefix(UNBLOCK_EVENTS, line, 0);
    NotPrefix(EXCEEDED, line, 0);
    NotPrefix(BLOCKED_IP + "\"", line, 0);
  }

  /** No quote, backslash or line break: what a label must be to survive the trip. */
  predicate Safe(ip: string) {
    Unbroken(ip) && '"' !in ip && '\\' !in ip
  }

  lemma EscapeSafe(ip: string)
    requires Safe(ip)
    ensures Escape(ip) == ip
  {
    ReplaceNothing(ip, '\\', "\\\\");
    ReplaceNothing(ip, '"', "\\\"");
  }

  /** Without quotes in it a label is read back as it was escaped. */
  lemma QuotedLabel(p: string, ip: string, rest: string)
    requires '"' !in p && '"' !in ip
    ensures Quoted(p + "\"" + (Escape(ip) + "\"" + rest)) == Some(Escape(ip))
  {
    var e := Replace(ip, '\\', "\\\\");
    ReplaceKeeps(ip, '\\', "\\\\", '"');
    ReplaceNothing(e, '"', "\\\"");
    AfterQuoteOf(p, e + "\"" + rest);
    UpToQuoteStops(e, rest);
  }

  lemma MeterLineIs(ip: string, n: int)
    ensures MeterLine(ip, n) == METER + "\"" + (Escape(ip) + "\"" + ("} " + Print(n)))
    ensures METER + "\"" <= MeterLine(ip, n)
  {
    var e, p := Escape(ip), Print(n);
    assert e + "\"} " + p == e + "\"" + ("} " + p);
  }

  lemma MeterLineRead(acc: Parsed, line: string, ip: string, n: int)
    requires METER + "\"" <= line && Quoted(line) == Some(ip) && ParseInt(LastField(line)) == Some(n)
    ensures ParseLine(acc, line) == Some(acc.(packets := acc.packets[ip := n]))
  {
  }

  lemma MeterLineParses(acc: Parsed, ip: string, n: int)
    requires '"' !in ip
    ensures ParseLine(acc, MeterLine(ip, n)) == Some(acc.(packets := acc.packets[Escape(ip) := n]))
  {
    MeterLineIs(ip, n);
    QuotedLabel(METER, ip, "} " + Print(n));
    MeterLineEnds(ip, n);
    MeterLineRead(acc, MeterLine(ip, n), Escape(ip), n);
  }

  lemma MeterLineEnds(ip: string, n: int)
    ensures ParseInt(LastField(MeterLine(ip, n))) == Some(n)
  {
    var head := METER + "\"" + (Escape(ip) + "\"} ");
    LastFieldIsNumber(head, n);
  }

  lemma BlockedLineParses(acc: Parsed, ip: string)
    requires '"' !in ip
    ensures ParseLine(acc, BlockedLine(ip)) == Some(acc.(blockedSet := acc.blockedSet + {Escape(ip)}))
  {
    var line := BlockedLine(ip);
    assert line == BLOCKED_IP + "\"" + (Escape(ip) + "\"" + "} 1");
    QuotedLabel(BLOCKED_IP, ip, "} 1");
    assert BLOCKED_IP + "\"" <= line;
    assert line[10] == BLOCKED_IP[10] && line[15] == BLOCKED_IP[15] && line[20] == BLOCKED_IP[20];
    NotPrefix(METER + "\"", line, 10);
    NotPrefix(BLOCKED_IPS, line, 20);
    NotPrefix(BLOCK_EVENTS, line, 15);
    NotPrefix(UNBLOCK_EVENTS, line, 10);
    NotPrefix(EXCEEDED, line, 10);
  }

  lemma BlockedCountParses(acc: Parsed, n: int)
    ensures ParseLine(acc, BLOCKED_IPS + Print(n)) == Some(acc.(blockedCount := n))
  {
    var line := BLOCKED_IPS + Print(n);
    LastFieldIsNumber(BLOCKED_IPS, n);
    NotPrefix(METER + "\"", line, 10);
  }

  lemma BlockEventsApart(line: string)
    requires BLOCK_EVENTS <= line
    ensures !(METER + "\"" <= line) && !(BLOCKED_IPS <= line)
  {
    assert forall i :: 0 <= i < |BLOCK_EVENTS| ==> line[i] == BLOCK_EVENTS[i];
    NotPrefix(METER + "\"", line, 10);
    NotPrefix(BLOCKED_IPS, line, 15);
  }

  lemma BlockEventsParses(acc: Parsed, n: int)
    ensures ParseLine(acc, BLOCK_EVENTS + Print(n)) == Some(acc.(blockEvents := n))
  {
    LastFieldIsNumber(BLOCK_EVENTS, n);
    BlockEventsApart(BLOCK_EVENTS + Print(n));
  }

  lemma UnblockEventsApart(line: string)
    requires UNBLOCK_EVENTS <= line
    ensures !(METER + "\"" <= line) && !(BLOCKED_IPS <= line) && !(BLOCK_EVENTS <= line)
  {
    assert forall i :: 0 <= i < |UNBLOCK_EVENTS| ==> line[i] == UNBLOCK_EVENTS[i];
    NotPrefix(METER + "\"", line, 10);
    NotPrefix(BLOCKED_IPS, line, 10);
    NotPrefix(BLOCK_EVENTS, line, 10);
  }

  lemma UnblockEventsParses(acc: Parsed, n: int)
    ensures ParseLine(acc, UNBLOCK_EVENTS + Print(n)) == Some(acc.(unblockEvents := n))
  {
    LastFieldIsNumber(UNBLOCK_EVENTS, n);
    UnblockEventsApart(UNBLOCK_EVENTS + Print(n));
  }

  lemma ExceededApart(line: string)
    requires EXCEEDED <= line
    ensures !(METER + "\"" <= line) && !(BLOCKED_IPS <= line) && !(BLOCK_EVENTS <= line) && !(UNBLOCK_EVENTS <= line)
  {
    assert forall i :: 0 <= i < |EXCEEDED| ==> line[i] == EXCEEDED[i];
    NotPrefix(METER + "\"", line, 10);
    NotPrefix(BLOCKED_IPS, line, 10);
    NotPrefix(BLOCK_EVENTS, line, 10);
    NotPrefix(UNBLOCK_EVENTS, line, 10);
  }

  lemma ExceededParses(acc: Parsed, n: int)
    ensures ParseLine(acc, EXCEEDED + Print(n)) == Some(acc.(shieldsUp := n))
  {
    LastFieldIsNumber(EXCEEDED, n);
    ExceededApart(EXCEEDED + Print(n));
  }

  // ----- Sections ------------------------------------------------------------------------

  lemma {:induction false} ParseAppend(acc: Parsed, a: seq<string>, b: seq<string>)
    ensures ParseLines(acc, a + b)
         == match ParseLines(acc, a) case None => None case Some(next) => ParseLines(next, b)
    decreases |a|
  {
    if a == [] {
      assert a + b == b;
    } else {
      assert (a + b)[1..] == a[1..] + b;
      var next := ParseLine(acc, a[0]);
      if next.Some? {
        ParseAppend(next.value, a[1..], b);
      }
    }
  }

  lemma OneLine(acc: Parsed, line: string)
    ensures ParseLines(acc, [line]) == ParseLine(acc, line)
  {
    assert [line][1..] == [];
  }

  lemma CommentsAreSkipped(acc: Parsed, name: string, help: string, kind: string)
    ensures ParseLines(acc, Comments(name, help, kind)) == Some(acc)
  {
    var lines := Comments(name, help, kind);
    assert lines[1..] == [lines[1]];
    CommentIsSkipped(acc, lines[0]);
    CommentIsSkipped(acc, lines[1]);
    OneLine(acc, lines[1]);
  }

  lemma SectionParses(acc: Parsed, name: string, help: string, kind: string, line: string)
    ensures ParseLines(acc, Comments(name, help, kind) + [line]) == ParseLine(acc, line)
  {
    ParseAppend(acc, Comments(name, help, kind), [line]);
    CommentsAreSkipped(acc, name, help, kind);
    OneLine(acc, line);
  }

  function Select(packets: map<string, int>, ips: seq<string>): map<string, int>
    requires forall ip :: ip in ips ==> ip in packets
  {
    map ip | ip in ips :: packets[ip]
  }

  lemma SelectStep(m: map<string, int>, packets: map<string, int>, ips: seq<string>)
    requires ips != [] && forall ip :: ip in ips ==> ip in packets
    ensures ips[0] in packets
    ensures m[ips[0] := packets[ips[0]]] + Select(packets, ips[1..]) == m + Select(packets, ips)
  {
    assert ips[0] in ips;
    assert forall ip :: ip in ips <==> ip == ips[0] || ip in ips[1..];
  }

  lemma {:induction false} MeterLinesParse(acc: Parsed, packets: map<string, int>, ips: seq<string>)
    requires forall ip :: ip in ips ==> ip in packets && Safe(ip)
    ensures ParseLines(acc, MeterLines(packets, ips)) == Some(acc.(packets := acc.packets + Select(packets, ips)))
    decreases |ips|
  {
    var lines := MeterLines(packets, ips);
    if ips == [] {
      assert acc.packets + Select(packets, ips) == acc.packets;
    } else {
      var ip := ips[0];
      assert ip in ips;
      MeterLineParses(acc, ip, packets[ip]);
      EscapeSafe(ip);
      assert lines[1..] == MeterLines(packets, ips[1..]);
      SelectStep(acc.packets, packets, ips);
      MeterLinesParse(acc.(packets := acc.packets[ip := packets[ip]]), packets, ips[1..]);
    }
  }

  lemma {:induction false} BlockedLinesParse(acc: Parsed, ips: seq<string>)
    requires forall ip :: ip in ips ==> Safe(ip)
    ensures ParseLines(acc, BlockedLines(ips)) == Some(acc.(blockedSet := acc.blockedSet + (set ip | ip in ips)))
    decreases |ips|
  {
    var lines := BlockedLines(ips);
    if ips == [] {
      assert acc.blockedSet + (set ip | ip in ips) == acc.blockedSet;
    } else {
      var ip := ips[0];
      assert ip in ips;
      BlockedLineParses(acc, ip);
      EscapeSafe(ip);
      assert lines[1..] == BlockedLines(ips[1..]);
      var next := acc.(blockedSet := acc.blockedSet + {ip});
      BlockedLinesParse(next, ips[1..]);
      assert next.blockedSet + (set i | i in ips[1..]) == acc.blockedSet + (set i | i in ips);
    }
  }

  lemma CountLinesParse(acc: Parsed, n: int)
    ensures ParseLines(acc, CountLines(n)) == Some(acc.(blockedCount := n))
  {
    SectionParses(acc, "fluxguard_blocked_ips", COUNT_HELP, "gauge", BLOCKED_IPS + Print(n));
    BlockedCountParses(acc, n);
  }

  lemma ThreeSections(acc: Parsed, c1: seq<string>, l1: string, c2: seq<string>, l2: string, c3: seq<string>, l3: string,
                      acc1: Parsed, acc2: Parsed)
    requires ParseLines(acc, c1 + [l1]) == Some(acc1) && ParseLines(acc1, c2 + [l2]) == Some(acc2)
    ensures ParseLines(acc, c1 + [l1] + c2 + [l2] + c3 + [l3]) == ParseLines(acc2, c3 + [l3])
  {
    ParseAppend(acc, c1 + [l1], c2 + [l2]);
    assert c1 + [l1] + c2 + [l2] == (c1 + [l1]) + (c2 + [l2]);
    ParseAppend(acc, c1 + [l1] + c2 + [l2], c3 + [l3]);
    assert c1 + [l1] + c2 + [l2] + c3 + [l3] == (c1 + [l1] + c2 + [l2]) + (c3 + [l3]);
  }

  lemma EventLinesParse(acc: Parsed, s: Snapshot)
    ensures ParseLines(acc, EventLines(s))
         == Some(acc.(blockEvents := s.blockEvents, unblockEvents := s.unblockEvents, shieldsUp := s.globalPpsExceeded))
  {
    var acc1 := acc.(blockEvents := s.blockEvents);
    var acc2 := acc1.(unblockEvents := s.unblockEvents);
    var l1, l2, l3 := BLOCK_EVENTS + Print(s.blockEvents), UNBLOCK_EVENTS + Print(s.unblockEvents), EXCEEDED + Print(s.globalPpsExceeded);
    SectionParses(acc, "fluxguard_block_events_total", "Cumulative block events.", "counter", l1);
    BlockEventsParses(acc, s.blockEvents);
    SectionParses(acc1, "fluxguard_unblock_events_total", "Cumulative unblock events.", "counter", l2);
    UnblockEventsParses(acc1, s.unblockEvents);
    SectionParses(acc2, "fluxguard_global_pps_exceeded_total", "Global Shields-Up events triggered.", "counter", l3);
    ExceededParses(acc2, s.globalPpsExceeded);
    ThreeSections(acc,
      Comments("fluxguard_block_events_total", "Cumulative block events.", "counter"), l1,
      Comments("fluxguard_unblock_events_total", "Cumulative unblock events.", "counter"), l2,
      Comments("fluxguard_global_pps_exceeded_total", "Global Shields-Up events triggered.", "counter"), l3, acc1, acc2);
  }

  // ----- The round trip ------------------------------------------------------------------

  /** What the dashboard should see of a snapshot. */
  function Shown(s: Snapshot): Parsed {
    Parsed(s.packets, s.blockedSet, s.blocked, s.blockEvents, s.unblockEvents, s.globalPpsExceeded)
  }

  ghost predicate Lists(list: seq<string>, keys: set<string>) {
    forall k :: k in list <==> k in keys
  }

  lemma FourParts(acc: Parsed, a: seq<string>, b: seq<string>, c: seq<string>, d: seq<string>,
                  acc1: Parsed, acc2: Parsed, acc3: Parsed)
    requires ParseLines(acc, a) == Some(acc1)
    requires ParseLines(acc1, b) == Some(acc2) && ParseLines(acc2, c) == Some(acc3)
    ensures ParseLines(acc, a + b + c + d) == ParseLines(acc3, d)
  {
    ParseAppend(acc, a, b);
    ParseAppend(acc, a + b, c);
    ParseAppend(acc, a + b + c, d);
  }

  lemma MeterPartParses(acc: Parsed, packets: map<string, int>, metered: seq<string>)
    requires acc.packets == map[] && Lists(metered, packets.Keys) && forall ip :: ip in packets ==> Safe(ip)
    ensures ParseLines(acc, MeterHeader() + MeterLines(packets, metered)) == Some(acc.(packets := packets))
  {
    MeterHeaderIsSkipped(acc);
    MeterLinesParse(acc, packets, metered);
    ParseAppend(acc, MeterHeader(), MeterLines(packets, metered));
    SelectAll(packets, metered);
  }

  lemma SelectAll(packets: map<string, int>, metered: seq<string>)
    requires Lists(metered, packets.Keys)
    ensures map[] + Select(packets, metered) == packets
  {
  }

  lemma LinesParse(acc: Parsed, s: Snapshot, metered: seq<string>, blocked: seq<string>)
    requires acc.packets == map[] && acc.blockedSet == {}
    requires Lists(metered, s.packets.Keys) && Lists(blocked, s.blockedSet)
    requires (forall ip :: ip in s.packets ==> Safe(ip)) && (forall ip :: ip in s.blockedSet ==> Safe(ip))
    ensures ParseLines(acc, Lines(s, metered, blocked)) == Some(Shown(s))
  {
    var blocks := if blocked == [] then [] else BlockedHeader() + BlockedLines(blocked);
    var acc1 := acc.(packets := s.packets);
    var acc2 := acc1.(blockedCount := s.blocked);
    var acc3 := acc2.(blockedSet := s.blockedSet);
    MeterPartParses(acc, s.packets, metered);
    CountLinesParse(acc1, s.blocked);
    BlocksParse(acc2, blocked, s.blockedSet);
    EventLinesParse(acc3, s);
    FourParts(acc, MeterHeader() + MeterLines(s.packets, metered), CountLines(s.blocked), blocks, EventLines(s), acc1, acc2, acc3);
  }

  lemma BlocksParse(acc: Parsed, blocked: seq<string>, blockedSet: set<string>)
    requires Lists(blocked, blockedSet) && acc.blockedSet == {} && forall ip :: ip in blockedSet ==> Safe(ip)
    ensures ParseLines(acc, if blocked == [] then [] else BlockedHeader() + BlockedLines(blocked))
         == Some(acc.(blockedSet := blockedSet))
  {
    assert acc.blockedSet + (set ip | ip in blocked) == blockedSet;
    if blocked == [] {
      assert blockedSet == {};
    } else {
      BlockedHeaderIsSkipped(acc);
      ParseAppend(acc, BlockedHeader(), BlockedLines(blocked));
      BlockedLinesParse(acc, blocked);
    }
  }

  lemma BlockedHeaderIsSkipped(acc: Parsed)
    ensures ParseLines(acc, BlockedHeader()) == Some(acc)
  {
    CommentsAreSkipped(acc, "fluxguard_blocked_ip", BLOCKED_HELP, "gauge");
  }

  lemma MeterHeaderIsSkipped(acc: Parsed)
    ensures ParseLines(acc, MeterHeader()) == Some(acc)
  {
    CommentsAreSkipped(acc, "fluxguard_meter_packets", METER_HELP, "gauge");
  }

  // ----- No line is broken ---------------------------------------------------------------

  lemma PrintIsUnbroken(n: int)
    ensures Unbroken(Print(n))
  {
    var m := if n < 0 then -n else n;
    assert forall c :: c in Print(n) ==> c == '-' || c in PrintNat(m);
  }

  ghost predicate AllUnbroken(lines: seq<string>) {
    forall l :: l in lines ==> Unbroken(l)
  }

  lemma CommentsUnbroken(name: string, help: string, kind: string)
    requires Unbroken(name) && Unbroken(help) && Unbroken(kind)
    ensures AllUnbroken(Comments(name, help, kind))
  {
  }

  lemma MeterHelpUnbroken()
    ensures Unbroken(METER_HELP)
  {
    assert Unbroken("Current packet counter per source IP ") && Unbroken("(IPv4 or IPv6) from meter_maps.");
  }

  lemma BlockedHelpBegins()
    ensures Unbroken("Per-IP block status (1 = currently ")
  {
  }

  lemma BlockedHelpEnds()
    ensures Unbroken("blocked, supports IPv4/IPv6).")
  {
  }

  lemma BlockedHelpUnbroken()
    ensures Unbroken(BLOCKED_HELP)
  {
    BlockedHelpBegins();
    BlockedHelpEnds();
    UnbrokenAppend("Per-IP block status (1 = currently ", "blocked, supports IPv4/IPv6).");
  }

  lemma CountHelpUnbroken()
    ensures Unbroken(COUNT_HELP)
  {
    assert Unbroken("Number of IPs currently ") && Unbroken("blocked by the brain.");
  }

  lemma HeadersUnbroken()
    ensures AllUnbroken(MeterHeader()) && AllUnbroken(BlockedHeader())
  {
    MeterHelpUnbroken();
    BlockedHelpUnbroken();
    CommentsUnbroken("fluxguard_meter_packets", METER_HELP, "gauge");
    CommentsUnbroken("fluxguard_blocked_ip", BLOCKED_HELP, "gauge");
  }

  lemma CountLinesUnbroken(n: int)
    ensures AllUnbroken(CountLines(n))
  {
    CountHelpUnbroken();
    CommentsUnbroken("fluxguard_blocked_ips", COUNT_HELP, "gauge");
    PrintIsUnbroken(n);
  }

  lemma SectionUnbroken(name: string, help: string, p: string, n: int)
    requires Unbroken(name) && Unbroken(help) && Unbroken(p)
    ensures AllUnbroken(Comments(name, help, "counter") + [p + Print(n)])
  {
    CommentsUnbroken(name, help, "counter");
    PrintIsUnbroken(n);
  }

  lemma BlockNameUnbroken()
    ensures Unbroken("fluxguard_block_events_total") && Unbroken(BLOCK_EVENTS)
  {
    assert BLOCK_EVENTS == "fluxguard_block_events_total" + " ";
  }

  lemma BlockSectionUnbroken(n: int)
    ensures AllUnbroken(Comments("fluxguard_block_events_total", "Cumulative block events.", "counter") + [BLOCK_EVENTS + Print(n)])
  {
    BlockNameUnbroken();
    SectionUnbroken("fluxguard_block_events_total", "Cumulative block events.", BLOCK_EVENTS, n);
  }

  lemma UnblockNameUnbroken()
    ensures Unbroken("fluxguard_unblock_events_total") && Unbroken(UNBLOCK_EVENTS)
  {
    assert UNBLOCK_EVENTS == "fluxguard_unblock_events_total" + " ";
  }

  lemma UnblockSectionUnbroken(n: int)
    ensures AllUnbroken(Comments("fluxguard_unblock_events_total", "Cumulative unblock events.", "counter") + [UNBLOCK_EVENTS + Print(n)])
  {
    UnblockNameUnbroken();
    SectionUnbroken("fluxguard_unblock_events_total", "Cumulative unblock events.", UNBLOCK_EVENTS, n);
  }

  lemma ExceededNameUnbroken()
    ensures Unbroken("fluxguard_global_pps_exceeded_total") && Unbroken(EXCEEDED)
  {
    assert EXCEEDED == "fluxguard_global_pps_exceeded_total" + " ";
  }

  lemma ExceededSectionUnbroken(n: int)
    ensures AllUnbroken(Comments("fluxguard_global_pps_exceeded_total", "Global Shields-Up events triggered.", "counter") + [EXCEEDED + Print(n)])
  {
    ExceededNameUnbroken();
    SectionUnbroken("fluxguard_global_pps_exceeded_total", "Global Shields-Up events triggered.", EXCEEDED, n);
  }

  lemma EventLinesUnbroken(s: Snapshot)
    ensures AllUnbroken(EventLines(s))
  {
    BlockSectionUnbroken(s.blockEvents);
    UnblockSectionUnbroken(s.unblockEvents);
    ExceededSectionUnbroken(s.globalPpsExceeded);
  }

  lemma UnbrokenAppend(a: string, b: string)
    requires Unbroken(a) && Unbroken(b)
    ensures Unbroken(a + b)
  {
  }

  lemma EscapeUnbroken(ip: string)
    requires Unbroken(ip)
    ensures Unbroken(Escape(ip))
  {
    ReplaceChars(ip, '\\', "\\\\");
    ReplaceChars(Replace(ip, '\\', "\\\\"), '"', "\\\"");
  }

  lemma PrefixesUnbroken()
    ensures Unbroken(METER + "\"") && Unbroken("\"} ")
  {
  }

  lemma MeterLineUnbroken(ip: string, n: int)
    requires Unbroken(ip)
    ensures Unbroken(MeterLine(ip, n))
  {
    EscapeUnbroken(ip);
    PrintIsUnbroken(n);
    var escaped := Escape(ip);
    PrefixesUnbroken();
    UnbrokenAppend(escaped, "\"} ");
    UnbrokenAppend(METER + "\"", escaped + "\"} ");
    UnbrokenAppend(METER + "\"" + (escaped + "\"} "), Print(n));
  }

  lemma BlockedLineUnbroken(ip: string)
    requires Unbroken(ip)
    ensures Unbroken(BlockedLine(ip))
  {
    EscapeUnbroken(ip);
    assert Unbroken(BLOCKED_IP + "\"") && Unbroken(Escape(ip) + "\"} 1");
  }

  lemma LabelLinesUnbroken(packets: map<string, int>, metered: seq<string>, blocked: seq<string>)
    requires forall ip :: ip in metered ==> ip in packets && Unbroken(ip)
    requires forall ip :: ip in blocked ==> Unbroken(ip)
    ensures AllUnbroken(MeterLines(packets, metered)) && AllUnbroken(BlockedLines(blocked))
  {
    forall i | 0 <= i < |metered| ensures Unbroken(MeterLine(metered[i], packets[metered[i]])) {
      MeterLineUnbroken(metered[i], packets[metered[i]]);
    }
    forall i | 0 <= i < |blocked| ensures Unbroken(BlockedLine(blocked[i])) {
      BlockedLineUnbroken(blocked[i]);
    }
  }

  /** A scrape's lines, joined and split, if no label has a line break. */
  lemma LinesSurvive(s: Snapshot, metered: seq<string>, blocked: seq<string>)
    requires (forall ip :: ip in metered ==> ip in s.packets && Unbroken(ip)) && (forall ip :: ip in blocked ==> Unbroken(ip))
    ensures SplitLines(Join(Lines(s, metered, blocked) + [""])) == Lines(s, metered, blocked)
  {
    HeadersUnbroken();
    CountLinesUnbroken(s.blocked);
    EventLinesUnbroken(s);
    LabelLinesUnbroken(s.packets, metered, blocked);
    SplitJoin(Lines(s, metered, blocked));
  }

  /**
   The dashboard reads back exactly what the exporter was given, for all counts and every set
   of addresses free of quotes, backslashes and line breaks, in whatever order they are listed.
   */
  lemma RoundTrip(s: Snapshot, metered: seq<string>, blocked: seq<string>)
    requires Lists(metered, s.packets.Keys) && Lists(blocked, s.blockedSet) && AllSafe(s)
    ensures ParseLines(NOTHING, SplitLines(Join(Lines(s, metered, blocked) + [""]))) == Some(Shown(s))
  {
    LinesSurvive(s, metered, blocked);
    LinesParse(NOTHING, s, metered, blocked);
  }

  predicate AllSafe(s: Snapshot) {
    (forall ip :: ip in s.packets ==> Safe(ip)) && (forall ip :: ip in s.blockedSet ==> Safe(ip))
  }

  // ----- The condition on labels is exact ------------------------------------------------

  /** No label that the parser reads has a quote or a line break. */
  predicate CleanLabels(p: Parsed) {
    && (forall ip :: ip in p.packets ==> Unbroken(ip) && '"' !in ip)
    && (forall ip :: ip in p.blockedSet ==> Unbroken(ip) && '"' !in ip)
  }

  lemma LineGrows(acc: Parsed, line: string)
    ensures var next := ParseLine(acc, line);
            next.Some? ==>
              && acc.packets.Keys <= next.value.packets.Keys && acc.blockedSet <= next.value.blockedSet
              && (Unbroken(line) && CleanLabels(acc) ==> CleanLabels(next.value))
  {
    if Unbroken(line) && Quoted(line).Some? {
      QuotedIsClean(line);
    }
  }

  /** The parser only ever adds labels, and only clean ones. */
  lemma {:induction false} LinesGrow(acc: Parsed, lines: seq<string>)
    requires ParseLines(acc, lines).Some?
    ensures var p := ParseLines(acc, lines).value;
            && acc.packets.Keys <= p.packets.Keys && acc.blockedSet <= p.blockedSet
            && (AllUnbroken(lines) && CleanLabels(acc) ==> CleanLabels(p))
    decreases |lines|
  {
    if lines != [] {
      LineGrows(acc, lines[0]);
      LinesGrow(ParseLine(acc, lines[0]).value, lines[1..]);
    }
  }

  lemma {:induction false} MeteredIsSeen(acc: Parsed, lines: seq<string>, ip: string, n: int)
    requires ParseLines(acc, lines).Some? && MeterLine(ip, n) in lines && '"' !in ip
    ensures Escape(ip) in ParseLines(acc, lines).value.packets
    decreases |lines|
  {
    if lines[0] == MeterLine(ip, n) {
      MeterLineParses(acc, ip, n);
      LinesGrow(ParseLine(acc, lines[0]).value, lines[1..]);
    } else {
      MeteredIsSeen(ParseLine(acc, lines[0]).value, lines[1..], ip, n);
    }
  }

  lemma {:induction false} BlockedIsSeen(acc: Parsed, lines: seq<string>, ip: string)
    requires ParseLines(acc, lines).Some? && BlockedLine(ip) in lines && '"' !in ip
    ensures Escape(ip) in ParseLines(acc, lines).value.blockedSet
    decreases |lines|
  {
    if lines[0] == BlockedLine(ip) {
      BlockedLineParses(acc, ip);
      LinesGrow(ParseLine(acc, lines[0]).value, lines[1..]);
    } else {
      BlockedIsSeen(ParseLine(acc, lines[0]).value, lines[1..], ip);
    }
  }

  /** Escaping makes a label with a backslash longer and leaves one in it. */
  lemma EscapeGrows(ip: string)
    requires '\\' in ip && '"' !in ip
    ensures |ip| < |Escape(ip)| && '\\' in Escape(ip)
  {
    var e := Replace(ip, '\\', "\\\\");
    ReplaceKeeps(ip, '\\', "\\\\", '"');
    ReplaceNothing(e, '"', "\\\"");
    ReplaceGrows(ip, '\\', "\\\\");
    ReplaceChars(ip, '\\', "\\\\");
  }

  lemma {:induction false} LengthBound(ips: set<string>) returns (m: nat)
    ensures forall ip :: ip in ips ==> |ip| <= m
  {
    if ips == {} {
      m := 0;
    } else {
      var ip :| ip in ips;
      var n := LengthBound(ips - {ip});
      m := n + |ip|;
    }
  }

  /** A finite set of labels without quotes that holds their escaped forms too has no backslash in it. */
  lemma {:induction false} ClosedUnderEscape(ips: set<string>, m: nat, ip: string)
    requires forall t :: t in ips ==> |t| <= m && '"' !in t && Escape(t) in ips
    requires ip in ips
    ensures '\\' !in ip
    decreases m - |ip|
  {
    if '\\' in ip {
      EscapeGrows(ip);
      ClosedUnderEscape(ips, m, Escape(ip));
    }
  }

  lemma NoBackslash(ips: set<string>)
    requires forall ip :: ip in ips ==> '"' !in ip && Escape(ip) in ips
    ensures forall ip :: ip in ips ==> '\\' !in ip
  {
    var m := LengthBound(ips);
    forall ip | ip in ips ensures '\\' !in ip {
      ClosedUnderEscape(ips, m, ip);
    }
  }

  /** Labels without quotes are all seen, as they were escaped. */
  lemma AllLabelsSeen(acc: Parsed, s: Snapshot, metered: seq<string>, blocked: seq<string>, p: Parsed)
    requires Lists(metered, s.packets.Keys) && Lists(blocked, s.blockedSet)
    requires (forall ip :: ip in s.packets ==> '"' !in ip) && (forall ip :: ip in s.blockedSet ==> '"' !in ip)
    requires ParseLines(acc, Lines(s, metered, blocked)) == Some(p)
    ensures forall ip :: ip in s.packets ==> Escape(ip) in p.packets
    ensures forall ip :: ip in s.blockedSet ==> Escape(ip) in p.blockedSet
  {
    var lines := Lines(s, metered, blocked);
    forall ip | ip in s.packets ensures Escape(ip) in p.packets {
      MeterLineIn(s, metered, blocked, ip);
      MeteredIsSeen(acc, lines, ip, s.packets[ip]);
    }
    forall ip | ip in s.blockedSet ensures Escape(ip) in p.blockedSet {
      BlockedLineIn(s, metered, blocked, ip);
      BlockedIsSeen(acc, lines, ip);
    }
  }

  lemma InOne(x: string, a: seq<string>, b: seq<string>, c: seq<string>, d: seq<string>, e: seq<string>)
    requires x in a || x in b || x in c || x in d || x in e
    ensures x in a + b + c + d + e
  {
  }

  lemma MeterLineIn(s: Snapshot, metered: seq<string>, blocked: seq<string>, ip: string)
    requires Lists(metered, s.packets.Keys) && ip in s.packets
    ensures MeterLine(ip, s.packets[ip]) in Lines(s, metered, blocked)
  {
    var j: nat :| j < |metered| && metered[j] == ip;
    assert MeterLines(s.packets, metered)[j] == MeterLine(ip, s.packets[ip]);
    InOne(MeterLine(ip, s.packets[ip]), MeterHeader(), MeterLines(s.packets, metered), CountLines(s.blocked),
            if blocked == [] then [] else BlockedHeader() + BlockedLines(blocked), EventLines(s));
  }

  lemma BlockedLineIn(s: Snapshot, metered: seq<string>, blocked: seq<string>, ip: string)
    requires Lists(metered, s.packets.Keys) && Lists(blocked, s.blockedSet) && ip in s.blockedSet
    ensures BlockedLine(ip) in Lines(s, metered, blocked)
  {
    var j: nat :| j < |blocked| && blocked[j] == ip;
    assert BlockedLines(blocked)[j] == BlockedLine(ip);
    InOne(BlockedLine(ip), MeterHeader(), MeterLines(s.packets, metered), CountLines(s.blocked),
            BlockedHeader() + BlockedLines(blocked), EventLines(s));
  }

  lemma LabelsAreClean(s: Snapshot, lines: seq<string>)
    requires AllUnbroken(lines) && ParseLines(NOTHING, lines) == Some(Shown(s))
    ensures CleanLabels(Shown(s))
  {
    LinesGrow(NOTHING, lines);
  }

  lemma ClosedIsSafe(s: Snapshot)
    requires CleanLabels(Shown(s))
    requires (forall ip :: ip in s.packets ==> Escape(ip) in s.packets) && (forall ip :: ip in s.blockedSet ==> Escape(ip) in s.blockedSet)
    ensures AllSafe(s)
  {
    NoBackslash(s.packets.Keys);
    NoBackslash(s.blockedSet);
  }

  /** The parser does not undo the escaping: a label comes back unchanged only if there was nothing to escape. */
  lemma LabelSurvivesIff(p: string, ip: string, rest: string)
    requires '"' !in p
    ensures Quoted(p + "\"" + (Escape(ip) + "\"" + rest)) == Some(ip) <==> '"' !in ip && '\\' !in ip
  {
    var e := Replace(ip, '\\', "\\\\");
    AfterQuoteOf(p, Escape(ip) + "\"" + rest);
    UpToQuoteStops(Escape(ip), "\"" + rest);
    assert Escape(ip) + ("\"" + rest) == Escape(ip) + "\"" + rest;
    if '"' !in ip {
      ReplaceKeeps(ip, '\\', "\\\\", '"');
      ReplaceNothing(e, '"', "\\\"");
      UpToQuoteStops(e, rest);
      if '\\' in ip {
        ReplaceGrows(ip, '\\', "\\\\");
      } else {
        ReplaceNothing(ip, '\\', "\\\\");
      }
    }
  }

  /**
   The whole condition: the dashboard reads back what the exporter was given if and only if no
   label, of a metered address or a blocked one, has a quote, a backslash or a line break.
   */
  lemma RoundTripIff(s: Snapshot, metered: seq<string>, blocked: seq<string>)
    requires Lists(metered, s.packets.Keys) && Lists(blocked, s.blockedSet)
    ensures ParseLines(NOTHING, SplitLines(Join(Lines(s, metered, blocked) + [""]))) == Some(Shown(s)) <==> AllSafe(s)
  {
    var text := Join(Lines(s, metered, blocked) + [""]);
    if AllSafe(s) {
      RoundTrip(s, metered, blocked);
    } else if ParseLines(NOTHING, SplitLines(text)) == Some(Shown(s)) {
      LinesAreUnbroken(text);
      LabelsAreClean(s, SplitLines(text));
      LinesSurvive(s, metered, blocked);
      AllLabelsSeen(NOTHING, s, metered, blocked, Shown(s));
      ClosedIsSafe(s);
    }
  }

  /** The exporter's own output, read by the dashboard's own parser. */
  method Scrape(state: MetricsState) returns (seen: Option<Parsed>)
    ensures seen == Some(Shown(state.Value())) <==> AllSafe(state.Value())
  {
    ghost var metered, blocked;
    var text;
    text, metered, blocked := state.RenderPrometheusText();
    seen := ParseMetrics(text);
    RoundTripIff(state.Value(), metered, blocked);
  }
}
