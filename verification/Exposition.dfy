/**
 The text format spelled out character by character, apart from the names that exporter and
 dashboard share: what a scrape says of every address and every figure, and what the
 dashboard makes of lines that are not the exporter's.
 */
module Exposition {
  import opened Words
  import opened Text
  import opened Metrics
  import D = Dashboard

  // ----- Numbers -------------------------------------------------------------------------

  /** The value of decimal digits, the highest first. */
  function Value(s: string): int {
    if s == "" then 0 else 10 * Value(s[..|s| - 1]) + (s[|s| - 1] as int - 48)
  }

  predicate Decimal(s: string) {
    s != "" && forall i :: 0 <= i < |s| ==> 48 <= s[i] as int <= 57
  }

  /** Numbers are printed in decimal digits, without leading zeros. */
  lemma {:induction false} PrintsDecimal(n: nat)
    ensures Decimal(PrintNat(n)) && Value(PrintNat(n)) == n
    ensures |PrintNat(n)| > 1 ==> PrintNat(n)[0] != '0'
    ensures n > 0 ==> PrintNat(n)[0] != '0'
  {
    var s := PrintNat(n);
    assert forall i :: 0 <= i < |s| ==> s[i] in s;
    if n < 10 {
      assert s[..0] == "";
    } else {
      PrintsDecimal(n / 10);
      assert s[..|s| - 1] == PrintNat(n / 10);
    }
  }

  lemma PrintIs(n: int)
    ensures Print(n) == if n < 0 then "-" + PrintNat(-n) else PrintNat(n)
    ensures n >= 0 ==> Decimal(Print(n)) && Value(Print(n)) == n
  {
    if n >= 0 {
      PrintsDecimal(n);
    }
  }

  /** And read as such, leading zeros and all. */
  lemma {:induction false} ReadsDecimal(s: string)
    requires Decimal(s)
    ensures ParseNat(s).Some? && ParseNat(s).value == Value(s) && ParseInt(s) == Some(Value(s))
  {
    if |s| > 1 {
      var front := s[..|s| - 1];
      assert forall i :: 0 <= i < |front| ==> front[i] == s[i];
      ReadsDecimal(front);
    } else {
      assert s[..0] == "";
    }
  }

  // ----- Labels --------------------------------------------------------------------------

  /** Quotes and backslashes get a backslash before them, whatever is around them; nothing else changes. */
  lemma EscapeIs(c: char, s: string)
    ensures Escape("") == ""
    ensures Escape([c] + s) == (if c == '\\' || c == '"' then ['\\', c] else [c]) + Escape(s)
  {
    var once := Replace(s, '\\', "\\\\");
    ReplaceCons(c, s, '\\', "\\\\");
    if c == '\\' {
      assert "\\\\" + once == ['\\'] + (['\\'] + once);
      ReplaceCons('\\', ['\\'] + once, '"', "\\\"");
      ReplaceCons('\\', once, '"', "\\\"");
      assert ['\\'] + (['\\'] + Escape(s)) == ['\\', '\\'] + Escape(s);
    } else {
      ReplaceCons(c, once, '"', "\\\"");
      assert "\\\"" == ['\\', '"'];
    }
  }

  lemma ReplaceCons(c: char, s: string, from: char, to: string)
    ensures Replace([c] + s, from, to) == (if c == from then to else [c]) + Replace(s, from, to)
  {
    assert ([c] + s)[1..] == s;
  }

  lemma EscapePlain(ip: string)
    requires '"' !in ip && '\\' !in ip
    ensures Escape(ip) == ip
  {
    ReplaceNothing(ip, '\\', "\\\\");
    ReplaceNothing(ip, '"', "\\\"");
  }

  // ----- Order ---------------------------------------------------------------------------

  /** a comes first where the two part: it ends there, or has the lower character. */
  ghost predicate Before(a: string, b: string) {
    a <= b || exists i :: 0 <= i < |a| && i < |b| && a[..i] == b[..i] && a[i] < b[i]
  }

  lemma {:induction false} SortsByFirstDifference(a: string, b: string)
    ensures LexLe(a, b) <==> Before(a, b)
  {
    if a != "" && b != "" && a[0] == b[0] {
      SortsByFirstDifference(a[1..], b[1..]);
      if Before(a[1..], b[1..]) && !(a[1..] <= b[1..]) {
        var i :| 0 <= i < |a[1..]| && i < |b[1..]| && a[1..][..i] == b[1..][..i] && a[1..][i] < b[1..][i];
        assert a[..i + 1] == [a[0]] + a[1..][..i] && b[..i + 1] == [b[0]] + b[1..][..i];
        assert a[i + 1] < b[i + 1];
      }
      if Before(a, b) && !(a <= b) {
        var i :| 0 <= i < |a| && i < |b| && a[..i] == b[..i] && a[i] < b[i];
        assert a[1..][..i - 1] == a[..i][1..] && b[1..][..i - 1] == b[..i][1..];
        assert a[1..][i - 1] < b[1..][i - 1];
      }
    } else if a != "" && b != "" && a[0] < b[0] {
      assert a[..0] == b[..0];
    } else if a != "" && b != "" {
      assert forall i :: 1 <= i <= |a| && i <= |b| ==> a[..i][0] == a[0] && b[..i][0] == b[0];
    }
  }

  // ----- Lines ---------------------------------------------------------------------------

  lemma BreaksAre(c: char)
    ensures IsBreak(c) <==> c as int in {10, 11, 12, 13, 28, 29, 30, 133, 8232, 8233}
  {
  }

  lemma {:induction false} BreakAtFirst(a: string, rest: string)
    requires Unbroken(a) && rest != "" && IsBreak(rest[0])
    ensures BreakAt(a + rest) == |a|
  {
    if a == "" {
      assert a + rest == rest;
    } else {
      assert (a + rest)[1..] == a[1..] + rest;
      assert a[0] in a;
      BreakAtFirst(a[1..], rest);
    }
  }

  /** A break ends a line, and a carriage return with a newline after it is one break. */
  lemma BreakEndsLine(a: string, c: char, rest: string)
    requires Unbroken(a) && IsBreak(c)
    ensures !(c == '\r' && rest != "" && rest[0] == '\n') ==> SplitLines(a + [c] + rest) == [a] + SplitLines(rest)
    ensures SplitLines(a + "\r\n" + rest) == [a] + SplitLines(rest)
  {
    var t, u := a + [c] + rest, a + "\r\n" + rest;
    assert t == a + ([c] + rest) && u == a + ("\r\n" + rest);
    BreakAtFirst(a, [c] + rest);
    BreakAtFirst(a, "\r\n" + rest);
    assert t[..|a|] == a && t[|a|] == c && t[|a| + 1..] == rest;
    assert u[..|a|] == a && u[|a|] == '\r' && u[|a| + 1] == '\n' && u[|a| + 2..] == rest;
  }

  lemma OneLine(a: string, rest: string)
    requires Unbroken(a)
    ensures SplitLines(a + "\n" + rest) == [a] + SplitLines(rest)
    ensures SplitLines(a + "\r\n" + rest) == [a] + SplitLines(rest)
    ensures SplitLines(a + "\n") == [a] && SplitLines(a + "\r\n") == [a]
  {
    BreakEndsLine(a, '\n', rest);
    BreakEndsLine(a, '\n', "");
    assert a + "\n" + "" == a + "\n" && a + "\r\n" + "" == a + "\r\n";
    assert [a] + SplitLines("") == [a];
  }

  /** Lines before a newline and lines after it are split apart from each other. */
  lemma {:induction false} SplitAtNewline(a: string, rest: string)
    ensures SplitLines(a + "\n" + rest) == SplitLines(a + "\n") + SplitLines(rest)
    decreases |a|
  {
    var i := BreakAt(a);
    if i == |a| {
      assert a[..i] == a;
      OneLine(a, rest);
    } else if a[i] == '\r' && i + 1 == |a| {
      assert a + "\n" + rest == a[..i] + "\r\n" + rest && a + "\n" == a[..i] + "\r\n";
      OneLine(a[..i], rest);
    } else {
      var j := if a[i] == '\r' && a[i + 1] == '\n' then i + 2 else i + 1;
      BreakInside(a, i, j, rest);
      SplitAtNewline(a[j..], rest);
      Regroup(a[..i], SplitLines(a[j..] + "\n"), SplitLines(rest));
    }
  }

  lemma Regroup(line: string, a: seq<string>, b: seq<string>)
    ensures [line] + (a + b) == [line] + a + b
  {
  }

  lemma BreakInside(a: string, i: nat, j: nat, rest: string)
    requires i == BreakAt(a) < |a| && (a[i] == '\r' ==> i + 1 < |a|)
    requires j == if a[i] == '\r' && a[i + 1] == '\n' then i + 2 else i + 1
    ensures SplitLines(a + "\n" + rest) == [a[..i]] + SplitLines(a[j..] + "\n" + rest)
    ensures SplitLines(a + "\n") == [a[..i]] + SplitLines(a[j..] + "\n")
  {
    var line, tail := a[..i], a[j..];
    var more := tail + "\n" + rest;
    if j == i + 2 {
      assert a == line + "\r\n" + tail;
      assert a + "\n" + rest == line + "\r\n" + more && a + "\n" == line + "\r\n" + (tail + "\n");
    } else {
      assert a == line + [a[i]] + tail;
      assert a + "\n" + rest == line + [a[i]] + more && a + "\n" == line + [a[i]] + (tail + "\n");
    }
    if a[i] == '\r' && j == i + 1 {
      assert more[0] == a[i + 1] && (tail + "\n")[0] == a[i + 1];
    }
    BreakEndsLine(line, a[i], more);
    BreakEndsLine(line, a[i], tail + "\n");
  }

  /** A line without breaks among others, broken or not, is a line of the joined text. */
  lemma {:induction false} LineSurvives(lines: seq<string>, line: string)
    requires line in lines && Unbroken(line)
    ensures line in SplitLines(Join(lines + [""]))
  {
    var first, rest := lines[0], Join(lines[1..] + [""]);
    assert (lines + [""])[1..] == lines[1..] + [""];
    SplitAtNewline(first, rest);
    if line == first {
      OneLine(line, "");
    } else {
      LineSurvives(lines[1..], line);
    }
  }

  // ----- What a scrape says --------------------------------------------------------------

  lemma LabelledLinesAre(ip: string, n: int)
    requires D.Safe(ip)
    ensures MeterLine(ip, n) == "fluxguard_meter_packets{ip=\"" + ip + "\"} " + Print(n)
    ensures BlockedLine(ip) == "fluxguard_blocked_ip{ip=\"" + ip + "\"} 1"
    ensures Unbroken(MeterLine(ip, n)) && Unbroken(BlockedLine(ip))
  {
    EscapePlain(ip);
    D.MeterLineUnbroken(ip, n);
    D.BlockedLineUnbroken(ip);
    assert METER + "\"" == "fluxguard_meter_packets{ip=\"" && BLOCKED_IP + "\"" == "fluxguard_blocked_ip{ip=\"";
  }

  /** The two comments above each metric, and the figure below. */
  lemma FiguresAre(s: Snapshot)
    ensures CountLines(s.blocked) ==
      ["# HELP " + ("fluxguard_blocked_ips" + " " + ("Number of IPs currently " + "blocked by the brain.")),
       "# TYPE " + ("fluxguard_blocked_ips" + " " + "gauge")]
      + ["fluxguard_blocked_ips " + Print(s.blocked)]
    ensures EventLines(s) ==
      ["# HELP " + ("fluxguard_block_events_total" + " " + "Cumulative block events."),
       "# TYPE " + ("fluxguard_block_events_total" + " " + "counter")]
      + ["fluxguard_block_events_total " + Print(s.blockEvents)]
      + ["# HELP " + ("fluxguard_unblock_events_total" + " " + "Cumulative unblock events."),
         "# TYPE " + ("fluxguard_unblock_events_total" + " " + "counter")]
      + ["fluxguard_unblock_events_total " + Print(s.unblockEvents)]
      + ["# HELP " + ("fluxguard_global_pps_exceeded_total" + " " + "Global Shields-Up events triggered."),
         "# TYPE " + ("fluxguard_global_pps_exceeded_total" + " " + "counter")]
      + ["fluxguard_global_pps_exceeded_total " + Print(s.globalPpsExceeded)]
  {
  }

  lemma HeadersAre()
    ensures MeterHeader() ==
      ["# HELP " + ("fluxguard_meter_packets" + " " + ("Current packet counter per source IP " + "(IPv4 or IPv6) from meter_maps.")),
       "# TYPE " + ("fluxguard_meter_packets" + " " + "gauge")]
    ensures BlockedHeader() ==
      ["# HELP " + ("fluxguard_blocked_ip" + " " + ("Per-IP block status (1 = currently " + "blocked, supports IPv4/IPv6).")),
       "# TYPE " + ("fluxguard_blocked_ip" + " " + "gauge")]
  {
  }

  lemma InText(s: Snapshot, metered: seq<string>, blocked: seq<string>, line: string)
    requires D.Lists(metered, s.packets.Keys) && line in Lines(s, metered, blocked) && Unbroken(line)
    ensures line in SplitLines(Join(Lines(s, metered, blocked) + [""]))
  {
    LineSurvives(Lines(s, metered, blocked), line);
  }

  lemma BlockedIsSaid(s: Snapshot, metered: seq<string>, blocked: seq<string>, ip: string)
    requires D.Lists(metered, s.packets.Keys) && D.Lists(blocked, s.blockedSet) && ip in s.blockedSet && D.Safe(ip)
    ensures "fluxguard_blocked_ip{ip=\"" + ip + "\"} 1" in SplitLines(Join(Lines(s, metered, blocked) + [""]))
  {
    LabelledLinesAre(ip, 0);
    D.BlockedLineIn(s, metered, blocked, ip);
    InText(s, metered, blocked, BlockedLine(ip));
  }

  lemma MeteredIsSaid(s: Snapshot, metered: seq<string>, blocked: seq<string>, ip: string)
    requires D.Lists(metered, s.packets.Keys) && ip in s.packets && D.Safe(ip)
    ensures "fluxguard_meter_packets{ip=\"" + ip + "\"} " + Print(s.packets[ip])
         in SplitLines(Join(Lines(s, metered, blocked) + [""]))
  {
    LabelledLinesAre(ip, s.packets[ip]);
    D.MeterLineIn(s, metered, blocked, ip);
    InText(s, metered, blocked, MeterLine(ip, s.packets[ip]));
  }

  lemma FigureIsSaid(s: Snapshot, metered: seq<string>, blocked: seq<string>, line: string)
    requires D.Lists(metered, s.packets.Keys) && (line in CountLines(s.blocked) || line in EventLines(s))
    ensures line in SplitLines(Join(Lines(s, metered, blocked) + [""]))
  {
    D.CountLinesUnbroken(s.blocked);
    D.EventLinesUnbroken(s);
    D.InOne(line, MeterHeader(), MeterLines(s.packets, metered), CountLines(s.blocked),
            if blocked == [] then [] else BlockedHeader() + BlockedLines(blocked), EventLines(s));
    InText(s, metered, blocked, line);
  }

  lemma CountIsSaid(s: Snapshot, metered: seq<string>, blocked: seq<string>)
    requires D.Lists(metered, s.packets.Keys)
    ensures "fluxguard_blocked_ips " + Print(s.blocked) in SplitLines(Join(Lines(s, metered, blocked) + [""]))
  {
    FiguresAre(s);
    assert CountLines(s.blocked)[2] == "fluxguard_blocked_ips " + Print(s.blocked);
    FigureIsSaid(s, metered, blocked, CountLines(s.blocked)[2]);
  }

  lemma EventsAreSaid(s: Snapshot, metered: seq<string>, blocked: seq<string>)
    requires D.Lists(metered, s.packets.Keys)
    ensures var lines := SplitLines(Join(Lines(s, metered, blocked) + [""]));
            && "fluxguard_block_events_total " + Print(s.blockEvents) in lines
            && "fluxguard_unblock_events_total " + Print(s.unblockEvents) in lines
            && "fluxguard_global_pps_exceeded_total " + Print(s.globalPpsExceeded) in lines
  {
    var events := EventLines(s);
    FiguresAre(s);
    assert events[2] == "fluxguard_block_events_total " + Print(s.blockEvents);
    assert events[5] == "fluxguard_unblock_events_total " + Print(s.unblockEvents);
    assert events[8] == "fluxguard_global_pps_exceeded_total " + Print(s.globalPpsExceeded);
    FigureIsSaid(s, metered, blocked, events[2]);
    FigureIsSaid(s, metered, blocked, events[5]);
    FigureIsSaid(s, metered, blocked, events[8]);
  }

  /** The comments above the addresses: the blocked ones have some only if there are any. */
  lemma HeadersAreSaid(s: Snapshot, metered: seq<string>, blocked: seq<string>)
    requires D.Lists(metered, s.packets.Keys) && D.Lists(blocked, s.blockedSet)
    ensures var lines := SplitLines(Join(Lines(s, metered, blocked) + [""]));
            && (forall line :: line in MeterHeader() ==> line in lines)
            && (s.blockedSet != {} ==> forall line :: line in BlockedHeader() ==> line in lines)
  {
    D.HeadersUnbroken();
    var all := Lines(s, metered, blocked);
    forall line | line in MeterHeader() ensures line in SplitLines(Join(all + [""])) {
      D.InOne(line, MeterHeader(), MeterLines(s.packets, metered), CountLines(s.blocked),
              if blocked == [] then [] else BlockedHeader() + BlockedLines(blocked), EventLines(s));
      InText(s, metered, blocked, line);
    }
    if s.blockedSet != {} {
      var ip :| ip in s.blockedSet;
      assert ip in blocked;
      forall line | line in BlockedHeader() ensures line in SplitLines(Join(all + [""])) {
        D.InOne(line, MeterHeader(), MeterLines(s.packets, metered), CountLines(s.blocked),
                BlockedHeader() + BlockedLines(blocked), EventLines(s));
        InText(s, metered, blocked, line);
      }
    }
  }

  lemma {:induction false} AsManyListed(list: seq<string>, keys: set<string>)
    requires SortedList(list, keys)
    ensures |list| == |keys|
    decreases |list|
  {
    if list != [] {
      var last := |list| - 1;
      assert list[last] in keys;
      assert forall k :: k in list[..last] <==> k in keys - {list[last]};
      AsManyListed(list[..last], keys - {list[last]});
    } else {
      assert forall k :: k in keys ==> k in list;
    }
  }

  /** And there is nothing else: how many lines a scrape has, if no label has a line break. */
  lemma LineCount(s: Snapshot, metered: seq<string>, blocked: seq<string>)
    requires SortedList(metered, s.packets.Keys) && SortedList(blocked, s.blockedSet)
    requires (forall ip :: ip in s.packets ==> Unbroken(ip)) && (forall ip :: ip in s.blockedSet ==> Unbroken(ip))
    ensures |SplitLines(Join(Lines(s, metered, blocked) + [""]))|
         == 14 + |s.packets| + (if s.blockedSet == {} then 0 else 2 + |s.blockedSet|)
  {
    D.LinesSurvive(s, metered, blocked);
    AsManyListed(metered, s.packets.Keys);
    AsManyListed(blocked, s.blockedSet);
  }

  /** The exporter's text, line by line, whatever other labels are in it. */
  method Export(state: MetricsState) returns (text: string)
    ensures forall ip :: ip in state.blockedIpsSet && D.Safe(ip) ==>
              "fluxguard_blocked_ip{ip=\"" + ip + "\"} 1" in SplitLines(text)
    ensures forall ip :: ip in state.packetsByIp && D.Safe(ip) ==>
              "fluxguard_meter_packets{ip=\"" + ip + "\"} " + Print(state.packetsByIp[ip]) in SplitLines(text)
    ensures forall line :: line in MeterHeader() ==> line in SplitLines(text)
    ensures state.blockedIpsSet != {} ==> forall line :: line in BlockedHeader() ==> line in SplitLines(text)
    ensures (forall ip :: ip in state.packetsByIp || ip in state.blockedIpsSet ==> Unbroken(ip)) ==>
              |SplitLines(text)| == 14 + |state.packetsByIp|
                                    + (if state.blockedIpsSet == {} then 0 else 2 + |state.blockedIpsSet|)
    ensures "fluxguard_blocked_ips " + Print(state.blockedIps) in SplitLines(text)
    ensures "fluxguard_block_events_total " + Print(state.blockEvents) in SplitLines(text)
    ensures "fluxguard_unblock_events_total " + Print(state.unblockEvents) in SplitLines(text)
    ensures "fluxguard_global_pps_exceeded_total " + Print(state.globalPpsExceeded) in SplitLines(text)
  {
    ghost var metered, blocked;
    text, metered, blocked := state.RenderPrometheusText();
    ghost var s := state.Value();
    forall ip | ip in state.blockedIpsSet && D.Safe(ip)
      ensures "fluxguard_blocked_ip{ip=\"" + ip + "\"} 1" in SplitLines(text)
    {
      BlockedIsSaid(s, metered, blocked, ip);
    }
    forall ip | ip in state.packetsByIp && D.Safe(ip)
      ensures "fluxguard_meter_packets{ip=\"" + ip + "\"} " + Print(state.packetsByIp[ip]) in SplitLines(text)
    {
      MeteredIsSaid(s, metered, blocked, ip);
    }
    CountIsSaid(s, metered, blocked);
    EventsAreSaid(s, metered, blocked);
    HeadersAreSaid(s, metered, blocked);
    if forall ip :: ip in state.packetsByIp || ip in state.blockedIpsSet ==> Unbroken(ip) {
      LineCount(s, metered, blocked);
    }
  }

  // ----- Lines that are not the exporter's -----------------------------------------------

  /** The dashboard skips every line that starts with none of the six names. */
  lemma OtherLinesAreSkipped(acc: D.Parsed, line: string)
    requires !("fluxguard_meter_packets{ip=\"" <= line) && !("fluxguard_blocked_ip{ip=\"" <= line)
    requires !("fluxguard_blocked_ips " <= line) && !("fluxguard_block_events_total " <= line)
    requires !("fluxguard_unblock_events_total " <= line) && !("fluxguard_global_pps_exceeded_total " <= line)
    ensures D.ParseLine(acc, line) == Some(acc)
  {
    assert METER + "\"" == "fluxguard_meter_packets{ip=\"" && BLOCKED_IP + "\"" == "fluxguard_blocked_ip{ip=\"";
  }

  /** A figure that is not a number is an error, and the scrape is not read at all. */
  lemma BadFigureIsAnError(acc: D.Parsed, line: string, lines: seq<string>)
    requires "fluxguard_blocked_ips " <= line || "fluxguard_meter_packets{ip=\"" <= line
    requires ParseInt(LastField(line)).None?
    ensures D.ParseLine(acc, line).None? && D.ParseLines(acc, [line] + lines).None?
  {
    assert METER + "\"" == "fluxguard_meter_packets{ip=\"";
    assert ([line] + lines)[0] == line;
  }
}
