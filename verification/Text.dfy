/** The pieces of Python's string library that the exporter and the dashboard use. */
module Text {
  import opened Words

  // ----- Decimal numbers -----------------------------------------------------------------

  predicate IsDigit(c: char) {
    '0' <= c <= '9'
  }

  predicate AllDigits(s: string) {
    forall c :: c in s ==> IsDigit(c)
  }

  function Digit(d: nat): char
    requires d < 10
  {
    ('0' as int + d) as char
  }

  function DigitValue(c: char): (d: nat)
    requires IsDigit(c)
    ensures d < 10
  {
    c as int - '0' as int
  }

  function PrintNat(n: nat): (s: string)
    ensures s != "" && AllDigits(s)
  {
    if n < 10 then [Digit(n)] else PrintNat(n / 10) + [Digit(n % 10)]
  }

  /** "%d" */
  function Print(n: int): string {
    if n < 0 then "-" + PrintNat(-n) else PrintNat(n)
  }

  function ParseNat(s: string): Option<nat> {
    if s == "" || !IsDigit(s[|s| - 1]) then None
    else if |s| == 1 then Some(DigitValue(s[0]))
    else match ParseNat(s[..|s| - 1])
         case None => None
         case Some(n) => Some(10 * n + DigitValue(s[|s| - 1]))
  }

  /** int() of ASCII digits with an optional minus sign. */
  function ParseInt(s: string): Option<int> {
    if s != "" && s[0] == '-' then
      var n: Option<int> := ParseNat(s[1..]);
      if n.None? then None else Some(-n.value)
    else
      ParseNat(s)
  }

  lemma {:induction false} ParsePrintNat(n: nat)
    ensures ParseNat(PrintNat(n)) == Some(n)
  {
    if n >= 10 {
      var s := PrintNat(n);
      assert s[..|s| - 1] == PrintNat(n / 10);
      ParsePrintNat(n / 10);
    }
  }

  lemma ParseMinus(digits: string)
    requires ParseNat(digits).Some?
    ensures var n: int := ParseNat(digits).value; ParseInt("-" + digits) == Some(-n)
  {
    assert ("-" + digits)[1..] == digits;
  }

  lemma ParsePrint(n: int)
    ensures ParseInt(Print(n)) == Some(n)
  {
    if n < 0 {
      ParsePrintNat(-n);
      ParseMinus(PrintNat(-n));
    } else {
      assert PrintNat(n)[0] in PrintNat(n);
      ParsePrintNat(n);
    }
  }

  // ----- Lines ---------------------------------------------------------------------------

  /** The characters at which str.splitlines() breaks. */
  predicate IsBreak(c: char) {
    || '\n' <= c <= '\r' || '\U{1C}' <= c <= '\U{1E}' || c == '\U{85}' || '\U{2028}' <= c <= '\U{2029}'
  }

  predicate Unbroken(s: string) {
    forall c :: c in s ==> !IsBreak(c)
  }

  function BreakAt(t: string): (i: nat)
    ensures i <= |t| && Unbroken(t[..i]) && (i < |t| ==> IsBreak(t[i]))
  {
    if t == "" || IsBreak(t[0]) then 0
    else
      var i := 1 + BreakAt(t[1..]);
      assert t[..i] == [t[0]] + t[1..][..i - 1];
      i
  }

  /** str.splitlines(): a break ends a line, and a carriage return takes a newline with it. */
  function SplitLines(t: string): seq<string>
    decreases |t|
  {
    if t == "" then []
    else
      var i := BreakAt(t);
      if i == |t| then [t]
      else if t[i] == '\r' && i + 1 < |t| && t[i + 1] == '\n' then [t[..i]] + SplitLines(t[i + 2..])
      else [t[..i]] + SplitLines(t[i + 1..])
  }

  /** "\n".join() */
  function Join(lines: seq<string>): string {
    if lines == [] then "" else if |lines| == 1 then lines[0] else lines[0] + "\n" + Join(lines[1..])
  }

  lemma FirstBreak(line: string, rest: string)
    requires Unbroken(line)
    ensures BreakAt(line + "\n" + rest) == |line|
  {
    var t, i := line + "\n" + rest, BreakAt(line + "\n" + rest);
    assert t[|line|] == '\n' && forall j :: 0 <= j < |line| ==> t[j] == line[j] && !IsBreak(line[j]);
    assert forall j :: 0 <= j < i ==> t[..i][j] == t[j];
    assert forall j :: 0 <= j < i ==> !IsBreak(t[j]);
  }

  lemma {:induction false} SplitJoin(lines: seq<string>)
    requires forall l :: l in lines ==> Unbroken(l)
    ensures SplitLines(Join(lines + [""])) == lines
  {
    if lines == [] {
      assert Join([""]) == "";
    } else {
      var line, rest := lines[0], Join(lines[1..] + [""]);
      assert (lines + [""])[1..] == lines[1..] + [""];
      var t := line + "\n" + rest;
      assert Join(lines + [""]) == t;
      assert line in lines;
      FirstBreak(line, rest);
      assert t[..|line|] == line && t[|line| + 1..] == rest;
      SplitJoin(lines[1..]);
    }
  }

  // ----- Fields --------------------------------------------------------------------------

  predicate IsSpace(c: char) {
    || '\t' <= c <= '\r' || '\U{1C}' <= c <= ' ' || c == '\U{85}' || c == '\U{A0}' || c == '\U{1680}'
    || '\U{2000}' <= c <= '\U{200A}' || '\U{2028}' <= c <= '\U{2029}' || c in {'\U{202F}', '\U{205F}', '\U{3000}'}
  }

  function LastWord(s: string): string {
    if s == "" || IsSpace(s[|s| - 1]) then "" else LastWord(s[..|s| - 1]) + [s[|s| - 1]]
  }

  /** line.split()[-1]; an empty result stands for the IndexError of a blank line. */
  function LastField(s: string): string {
    if s != "" && IsSpace(s[|s| - 1]) then LastField(s[..|s| - 1]) else LastWord(s)
  }

  lemma {:induction false} LastWordIs(p: string, w: string)
    requires p != "" && IsSpace(p[|p| - 1]) && forall c :: c in w ==> !IsSpace(c)
    ensures LastWord(p + w) == w
    decreases |w|
  {
    if w == "" {
      assert p + w == p;
    } else {
      var v := w[..|w| - 1];
      assert (p + w)[..|p + w| - 1] == p + v;
      assert w[|w| - 1] in w;
      LastWordIs(p, v);
    }
  }

  /** A printed number after a space is the line's last field. */
  lemma LastFieldIsNumber(p: string, n: int)
    requires p != "" && p[|p| - 1] == ' '
    ensures LastField(p + Print(n)) == Print(n) && ParseInt(LastField(p + Print(n))) == Some(n)
  {
    var w := Print(n);
    var m := if n < 0 then -n else n;
    assert forall c :: c in w ==> c == '-' || c in PrintNat(m);
    assert forall c :: c in w ==> !IsSpace(c);
    assert w[|w| - 1] in w && (p + w)[|p + w| - 1] == w[|w| - 1];
    LastWordIs(p, w);
    ParsePrint(n);
  }

  // ----- Quotes --------------------------------------------------------------------------

  /** The text up to the first double quote. */
  function UpToQuote(s: string): string {
    if s == "" || s[0] == '"' then "" else [s[0]] + UpToQuote(s[1..])
  }

  function AfterQuote(s: string): Option<string> {
    if s == "" then None else if s[0] == '"' then Some(s[1..]) else AfterQuote(s[1..])
  }

  /** line.split('"')[1], or None for the IndexError of a line without quotes. */
  function Quoted(line: string): Option<string> {
    match AfterQuote(line) case None => None case Some(rest) => Some(UpToQuote(rest))
  }

  /** s.replace(c, r) for a single character c. */
  function Replace(s: string, c: char, r: string): string {
    if s == "" then "" else (if s[0] == c then r else [s[0]]) + Replace(s[1..], c, r)
  }

  lemma {:induction false} ReplaceNothing(s: string, c: char, r: string)
    requires c !in s
    ensures Replace(s, c, r) == s
  {
    if s != "" {
      assert s[0] in s;
      ReplaceNothing(s[1..], c, r);
    }
  }

  lemma {:induction false} ReplaceGrows(s: string, c: char, r: string)
    requires |r| >= 2
    ensures |s| <= |Replace(s, c, r)| && (c in s ==> |s| < |Replace(s, c, r)|)
  {
    if s != "" {
      ReplaceGrows(s[1..], c, r);
    }
  }

  lemma {:induction false} ReplaceKeeps(s: string, c: char, r: string, q: char)
    requires q != c && q !in r
    ensures q in Replace(s, c, r) <==> q in s
  {
    if s != "" {
      ReplaceKeeps(s[1..], c, r, q);
      assert s == [s[0]] + s[1..];
    }
  }

  lemma {:induction false} UpToQuoteStops(s: string, rest: string)
    ensures '"' !in UpToQuote(s + rest)
    ensures '"' !in s ==> UpToQuote(s + "\"" + rest) == s
  {
    if s + rest != "" {
      if s == "" {
        assert s + rest == rest;
        UpToQuoteStops("", rest[1..]);
        assert "" + rest[1..] == rest[1..];
      } else {
        assert (s + rest)[1..] == s[1..] + rest;
        assert (s + "\"" + rest)[1..] == s[1..] + "\"" + rest;
        assert s[0] in s;
        UpToQuoteStops(s[1..], rest);
      }
    }
  }

  lemma {:induction false} AfterQuoteOf(p: string, rest: string)
    requires '"' !in p
    ensures AfterQuote(p + "\"" + rest) == Some(rest)
  {
    if p == "" {
      assert p + "\"" + rest == ['"'] + rest;
    } else {
      assert (p + "\"" + rest)[1..] == p[1..] + "\"" + rest;
      assert p[0] in p;
      AfterQuoteOf(p[1..], rest);
    }
  }

  // ----- What survives -------------------------------------------------------------------

  /** Every line that splitlines() gives is free of line breaks. */
  lemma {:induction false} LinesAreUnbroken(t: string)
    ensures forall l :: l in SplitLines(t) ==> Unbroken(l)
    decreases |t|
  {
    if t != "" {
      var i := BreakAt(t);
      if i == |t| {
        assert t[..i] == t;
      } else if t[i] == '\r' && i + 1 < |t| && t[i + 1] == '\n' {
        LinesAreUnbroken(t[i + 2..]);
      } else {
        LinesAreUnbroken(t[i + 1..]);
      }
    }
  }

  lemma {:induction false} UpToQuoteIsClean(s: string)
    ensures '"' !in UpToQuote(s) && forall c :: c in UpToQuote(s) ==> c in s
  {
    if s != "" && s[0] != '"' {
      UpToQuoteIsClean(s[1..]);
    }
  }

  lemma {:induction false} AfterQuoteIsPart(s: string)
    ensures AfterQuote(s).Some? ==> forall c :: c in AfterQuote(s).value ==> c in s
  {
    if s != "" && s[0] != '"' {
      AfterQuoteIsPart(s[1..]);
    }
  }

  /** What is read between quotes has no quote in it, and no line break if the line has none. */
  lemma QuotedIsClean(line: string)
    requires Unbroken(line) && Quoted(line).Some?
    ensures Unbroken(Quoted(line).value) && '"' !in Quoted(line).value
  {
    AfterQuoteIsPart(line);
    UpToQuoteIsClean(AfterQuote(line).value);
  }

  lemma {:induction false} ReplaceChars(s: string, c: char, r: string)
    ensures forall q :: q in Replace(s, c, r) ==> q in s || q in r
    ensures c in s && c in r ==> c in Replace(s, c, r)
  {
    if s != "" {
      ReplaceChars(s[1..], c, r);
      assert s == [s[0]] + s[1..];
    }
  }
}
