/**
 The dashboard's drain of the kernel's ring buffer: a loop over bytes nobody vouches for,
 which writes its position back into the first eight of them.
 */
module RingDrain {
  import opened Words

  type Byte = x: int | 0 <= x < 256

  const PAGE := 4096
  const RB_SIZE := 262_144
  const DATA := 8192
  const PAYLOAD := 32

  // ----- Little-endian words -------------------------------------------------------------

  function U32At(b: seq<Byte>, i: nat): U32
    requires i + 4 <= |b|
  {
    var b0: int, b1: int, b2: int, b3: int := b[i], b[i + 1], b[i + 2], b[i + 3];
    b0 + 0x100 * b1 + 0x1_0000 * b2 + 0x100_0000 * b3
  }

  function U64At(b: seq<Byte>, i: nat): U64
    requires i + 8 <= |b|
  {
    U32At(b, i) + 0x1_0000_0000 * U32At(b, i + 4)
  }

  function LE32(v: U32): (b: seq<Byte>)
    ensures |b| == 4
  {
    [v % 0x100, v / 0x100 % 0x100, v / 0x1_0000 % 0x100, v / 0x100_0000]
  }

  lemma LE32RoundTrip(v: U32)
    ensures U32At(LE32(v), 0) == v
  {
    var high := v / 0x1_0000;
    assert v == v % 0x100 + 0x100 * (v / 0x100 % 0x100) + 0x1_0000 * high;
    assert high == high % 0x100 + 0x100 * (v / 0x100_0000);
  }

  /** struct.pack_into("<Q", buf, 0, v) */
  method StoreCons(buf: array<Byte>, v: U64)
    requires buf.Length >= 8
    modifies buf
    ensures U64At(buf[..], 0) == v
    ensures buf[8..] == old(buf[8..])
  {
    var low, high := LE32(v % 0x1_0000_0000), LE32(v / 0x1_0000_0000);
    LE32RoundTrip(v % 0x1_0000_0000);
    LE32RoundTrip(v / 0x1_0000_0000);
    buf[0], buf[1], buf[2], buf[3] := low[0], low[1], low[2], low[3];
    buf[4], buf[5], buf[6], buf[7] := high[0], high[1], high[2], high[3];
    assert U32At(buf[..], 0) == U32At(low, 0) && U32At(buf[..], 4) == U32At(high, 0);
  }

  // ----- What a drain finds --------------------------------------------------------------

  /** An address as printed: four bytes, sixteen bytes, or a complaint about the family. */
  datatype Ip = Ipv4(octets: seq<Byte>) | Ipv6(octets: seq<Byte>) | Unknown(af: Byte)

  datatype Event = Event(ip: Ip, reason: Byte, timestamp: U64)

  /** Bits 31 and 30 of a record's length: being written, or discarded. */
  predicate Flagged(header: U32) {
    header >= 0x4000_0000
  }

  /** The data length, rounded up to eight. */
  function RecordSize(header: U32): nat {
    Words8(header % 0x1000_0000) * 8
  }

  /** How many eight-byte words a length takes. */
  function Words8(length: nat): (n: nat)
    ensures 8 * n >= length && 8 * n < length + 8
  {
    (length + 7) / 8
  }

  /** The source is read as a little-endian word and printed as a big-endian one. */
  function EventAt(b: seq<Byte>, p: nat): Event
    requires p + PAYLOAD <= |b|
  {
    var ip := if b[p] == 4 then Ipv4([b[p + 7], b[p + 6], b[p + 5], b[p + 4]])
              else if b[p] == 6 then Ipv6(b[p + 8..p + 24])
              else Unknown(b[p]);
    Event(ip, b[p + 1], U64At(b, p + 24))
  }

  /** Where the header of the record at position cons lies in the mapping. */
  function HeaderAt(cons: U64): nat {
    DATA + cons % RB_SIZE
  }

  /** The events found, the position reached, the number of iterations, and whether the last store of a position overflowed. */
  datatype Drained = Drained(events: seq<Event>, cons: nat, turns: nat, raised: bool)

  /** The loop from position cons: how far one iteration advances, and what it yields; None ends the loop. */
  function Advance(b: seq<Byte>, cons: U64): (r: Option<(nat, seq<Event>)>)
    ensures r.Some? ==> 8 <= r.value.0
  {
    var h := HeaderAt(cons);
    if h + 4 > |b| then None
    else
      var header := U32At(b, h);
      if Flagged(header) then
        if RecordSize(header) == 0 then None else Some((RecordSize(header), []))
      else if h + 8 + PAYLOAD > |b| then None
      else Some((if RecordSize(header) == 0 then 8 else RecordSize(header), [EventAt(b, h + 8)]))
  }

  function Drain(b: seq<Byte>, cons: U64, prod: U64): Drained
    decreases prod - cons
  {
    if cons >= prod then Drained([], cons, 0, false)
    else match Advance(b, cons)
      case None => Drained([], cons, 1, false)
      case Some((size, found)) =>
        if cons + size >= TWO64 then Drained(found, cons, 1, true)
        else
          Preceded(found, 1, Drain(b, cons + size, prod))
  }

  function Preceded(found: seq<Event>, turns: nat, rest: Drained): Drained {
    Drained(found + rest.events, rest.cons, turns + rest.turns, rest.raised)
  }

  lemma PrecededTwice(found: seq<Event>, turns: nat, event: seq<Event>, rest: Drained)
    ensures Preceded(found, turns, Preceded(event, 1, rest)) == Preceded(found + event, turns + 1, rest)
  {
    assert found + (event + rest.events) == found + event + rest.events;
  }

  /** None is the exception of a position that does not fit eight bytes; the events found until then go with it. */
  method DrainRingbuf(buf: array<Byte>) returns (events: Option<seq<Event>>, ghost turns: nat)
    modifies buf
    ensures buf.Length < PAGE + 8 ==> events == Some([]) && buf[..] == old(buf[..])
    ensures buf.Length >= PAGE + 8 ==>
      var cons, prod := U64At(old(buf[..]), 0), U64At(old(buf[..]), PAGE);
      if prod < cons || prod - cons > RB_SIZE then events == Some([]) && buf[..] == old(buf[..])
      else
        var d := Drain(old(buf[..]), cons, prod);
        && events == (if d.raised then None else Some(d.events)) && turns == d.turns
        && U64At(buf[..], 0) == d.cons && buf[8..] == old(buf[8..])
    ensures turns <= RB_SIZE / 8 == 32_768
  {
    if buf.Length < PAGE + 8 {
      return Some([]), 0;
    }
    ghost var before := buf[..];
    var cons, prod := U64At(buf[..], 0), U64At(buf[..], PAGE);
    if prod < cons || prod - cons > RB_SIZE {
      return Some([]), 0;
    }
    LoopEndsSoon(before, cons, prod);
    events, turns := DrainFrom(buf, cons, prod, before);
  }

  /** The loop. */
  method DrainFrom(buf: array<Byte>, start: U64, prod: U64, ghost before: seq<Byte>)
    returns (events: Option<seq<Event>>, ghost turns: nat)
    requires buf.Length >= 8 && before == buf[..] && U64At(before, 0) == start
    modifies buf
    ensures var d := Drain(before, start, prod);
            && events == (if d.raised then None else Some(d.events)) && turns == d.turns
            && U64At(buf[..], 0) == d.cons && buf[8..] == before[8..]
  {
    var cons, found: seq<Event> := start, [];
    turns := 0;
    ghost var d, rest := Drain(before, start, prod), before[8..];
    assert d == Preceded(found, turns, d);
    while cons < prod
      invariant U64At(buf[..], 0) == cons && buf[8..] == rest
      invariant d == Preceded(found, turns, Drain(before, cons, prod))
      decreases prod - cons
    {
      var record := NextRecord(buf, cons, before);
      DrainTurn(before, cons, prod, found, turns, record, d);
      turns := turns + 1;
      if record.None? {
        return Some(found), turns;
      }
      var (size, event) := record.value;
      found := found + event;
      if cons + size >= TWO64 {
        return None, turns;
      }
      cons := cons + size;
      StoreCons(buf, cons);
    }
    DrainEnd(before, cons, prod, found, turns);
    events := Some(found);
  }

  lemma DrainEnd(b: seq<Byte>, cons: U64, prod: U64, found: seq<Event>, turns: nat)
    requires cons >= prod
    ensures Preceded(found, turns, Drain(b, cons, prod)) == Drained(found, cons, turns, false)
  {
    assert found + [] == found;
  }

  /** One turn of the loop, with what was found before it. */
  lemma DrainTurn(b: seq<Byte>, cons: U64, prod: U64, found: seq<Event>, turns: nat, turn: Option<(nat, seq<Event>)>, d: Drained)
    requires cons < prod && turn == Advance(b, cons) && d == Preceded(found, turns, Drain(b, cons, prod))
    ensures turn.None? ==> d == Drained(found, cons, turns + 1, false)
    ensures turn.Some? && cons + turn.value.0 >= TWO64 ==> d == Drained(found + turn.value.1, cons, turns + 1, true)
    ensures turn.Some? && cons + turn.value.0 < TWO64 ==>
              turn.value.0 >= 8 && d == Preceded(found + turn.value.1, turns + 1, Drain(b, cons + turn.value.0, prod))
  {
    if turn.Some? {
      var (size, event) := turn.value;
      if cons + size < TWO64 {
        PrecededTwice(found, turns, event, Drain(b, cons + size, prod));
      }
    } else {
      assert found + [] == found;
    }
  }

  /** The body of the loop: bounds checks, flags, and the event if there is one. */
  method NextRecord(buf: array<Byte>, cons: U64, ghost before: seq<Byte>) returns (r: Option<(nat, seq<Event>)>)
    requires buf.Length == |before| >= 8 && buf[8..] == before[8..]
    ensures r == Advance(before, cons)
  {
    var h := DATA + cons % RB_SIZE;
    if h + 4 > buf.Length {
      return None;
    }
    SameTail(before, buf[..], h);
    var header := U32At(buf[..], h);
    var size := RecordSize(header);
    if Flagged(header) {
      return if size == 0 then None else Some((size, []));
    }
    if h + 8 + PAYLOAD > buf.Length {
      return None;
    }
    SameTailEvent(before, buf[..], h + 8);
    if size == 0 {
      size := 8;
    }
    return Some((size, [EventAt(buf[..], h + 8)]));
  }

  lemma SameTail(b: seq<Byte>, c: seq<Byte>, h: nat)
    requires |b| == |c| && |b| >= 8 && b[8..] == c[8..] && 8 <= h && h + 4 <= |b|
    ensures U32At(b, h) == U32At(c, h)
  {
    assert forall i :: 8 <= i < |b| ==> b[i] == b[8..][i - 8] && c[i] == c[8..][i - 8];
  }

  lemma SameTailEvent(b: seq<Byte>, c: seq<Byte>, p: nat)
    requires |b| == |c| && |b| >= 8 && b[8..] == c[8..] && 8 <= p && p + PAYLOAD <= |b|
    ensures EventAt(b, p) == EventAt(c, p)
  {
    assert forall i :: 8 <= i < |b| ==> b[i] == b[8..][i - 8] && c[i] == c[8..][i - 8];
    assert b[p + 8..p + 24] == c[p + 8..p + 24];
  }

  // ----- The steps spelled out -----------------------------------------------------------

  /** Byte by byte, the lowest first. */
  lemma LittleEndian(b: seq<Byte>, i: nat)
    requires i + 4 <= |b|
    ensures var n: int := U32At(b, i);
            n % 256 == b[i] && n / 256 % 256 == b[i + 1] && n / 65_536 % 256 == b[i + 2] && n / 16_777_216 == b[i + 3]
  {
    var b0: int, b1: int, b2: int, b3: int := b[i], b[i + 1], b[i + 2], b[i + 3];
    Digits(b0, b1, b2, b3);
  }

  lemma Digits(b0: int, b1: int, b2: int, b3: int)
    requires 0 <= b0 < 256 && 0 <= b1 < 256 && 0 <= b2 < 256 && 0 <= b3 < 256
    ensures var n := b0 + 256 * b1 + 65_536 * b2 + 16_777_216 * b3;
            n % 256 == b0 && n / 256 % 256 == b1 && n / 65_536 % 256 == b2 && n / 16_777_216 == b3
  {
    var n := b0 + 256 * b1 + 65_536 * b2 + 16_777_216 * b3;
    var m := b1 + 256 * b2 + 65_536 * b3;
    assert n == b0 + 256 * m && n / 256 == m;
    assert m == b1 + 256 * (b2 + 256 * b3) && m / 256 == b2 + 256 * b3;
    assert n / 65_536 == b2 + 256 * b3;
    assert n / 16_777_216 == b3;
  }

  /** Two halves, the lower first. */
  lemma LowHalfFirst(b: seq<Byte>, i: nat)
    requires i + 8 <= |b|
    ensures U64At(b, i) % 0x1_0000_0000 == U32At(b, i) && U64At(b, i) / 0x1_0000_0000 == U32At(b, i + 4)
  {
    Halves(U32At(b, i), U32At(b, i + 4));
  }

  lemma Halves(low: U32, high: U32)
    ensures var n := low + 0x1_0000_0000 * high; n % 0x1_0000_0000 == low && n / 0x1_0000_0000 == high
  {
  }

  /** An event is read from the six fields of the record, each at its offset. */
  lemma EventIs(b: seq<Byte>, p: nat)
    requires p + 32 <= |b|
    ensures var e := EventAt(b, p);
            && e.reason == b[p + 1] && e.timestamp == U64At(b, p + 24)
            && (b[p] == 4 ==> e.ip == Ipv4([b[p + 7], b[p + 6], b[p + 5], b[p + 4]]))
            && (b[p] == 6 ==> e.ip == Ipv6(b[p + 8..p + 24]))
            && (b[p] != 4 && b[p] != 6 ==> e.ip == Unknown(b[p]))
  {
  }

  /**
   One turn of the loop on any bytes. It ends the drain if the header or the record is not all in the
   mapping, or if a flagged record is empty; it finds an event if no flag is set; and it
   advances by the length in the low 28 bits, rounded up to eight, but by eight at least.
   */
  lemma AdvanceIs(b: seq<Byte>, cons: U64)
    ensures var h := 8192 + cons % 262_144;
            if h + 4 > |b| then Advance(b, cons).None?
            else
              var header: int := U32At(b, h);
              var len, flagged := header % 0x1000_0000, header >= 0x4000_0000;
              && (Advance(b, cons).None? <==> if flagged then len == 0 else h + 40 > |b|)
              && (Advance(b, cons).Some? ==>
                    var (size, found) := Advance(b, cons).value;
                    && found == (if flagged then [] else [EventAt(b, h + 8)])
                    && size % 8 == 0 && len <= size && (size < len + 8 || (len == 0 && size == 8)))
  {
    AdvanceFits(b, cons);
  }

  // ----- On any bytes --------------------------------------------------------------------

  lemma SizeFits(header: U32)
    ensures RecordSize(header) % 8 == 0 && RecordSize(header) <= 0x1000_0000
  {
    var length := header % 0x1000_0000;
    assert length < 0x1000_0000;
    WholeWords(Words8(length));
  }

  lemma WholeWords(n: nat)
    ensures n * 8 % 8 == 0
  {
  }

  lemma AdvanceFits(b: seq<Byte>, cons: U64)
    ensures Advance(b, cons).Some? ==> Advance(b, cons).value.0 % 8 == 0 && Advance(b, cons).value.0 <= 0x1000_0000
  {
    if HeaderAt(cons) + 4 <= |b| {
      SizeFits(U32At(b, HeaderAt(cons)));
    }
  }

  /** The position never goes back, stays in its word, and goes at most one record past the producer. */
  lemma {:induction false} ConsumerOnlyAdvances(b: seq<Byte>, cons: U64, prod: U64)
    ensures var d := Drain(b, cons, prod);
            && cons <= d.cons < TWO64
            && (cons <= prod ==> d.cons < prod + 0x1000_0000)
            && (d.raised ==> TWO64 - 0x1000_0000 <= d.cons < prod)
    decreases prod - cons
  {
    AdvanceFits(b, cons);
    if cons < prod && Advance(b, cons).Some? {
      var size := Advance(b, cons).value.0;
      if cons + size < TWO64 {
        ConsumerOnlyAdvances(b, cons + size, prod);
      }
    }
  }

  /** The position keeps its alignment. */
  lemma {:induction false} ConsumerKeepsAlignment(b: seq<Byte>, cons: U64, prod: U64)
    ensures Drain(b, cons, prod).cons % 8 == cons % 8
    decreases prod - cons
  {
    AdvanceFits(b, cons);
    if cons < prod && Advance(b, cons).Some? {
      var size := Advance(b, cons).value.0;
      if cons + size < TWO64 {
        ConsumerKeepsAlignment(b, cons + size, prod);
        SameAlignment(cons, size);
      }
    }
  }

  lemma SameAlignment(cons: nat, size: nat)
    requires size % 8 == 0
    ensures (cons + size) % 8 == cons % 8
  {
  }

  /** The loop ends within one iteration for each eight bytes pending, and finds no more events than iterations. */
  lemma {:induction false} LoopEnds(b: seq<Byte>, cons: U64, prod: U64)
    ensures |Drain(b, cons, prod).events| <= Drain(b, cons, prod).turns <= (Max(0, prod - cons) + 7) / 8
    decreases prod - cons
  {
    if cons < prod && Advance(b, cons).Some? {
      var size := Advance(b, cons).value.0;
      if cons + size < TWO64 {
        LoopEnds(b, cons + size, prod);
      }
    }
  }

  /** Behind the guard on the two positions that is at most 32768 iterations. */
  lemma LoopEndsSoon(b: seq<Byte>, cons: U64, prod: U64)
    requires cons <= prod && prod - cons <= RB_SIZE
    ensures Drain(b, cons, prod).turns <= RB_SIZE / 8 == 32_768
  {
    LoopEnds(b, cons, prod);
  }

  // ----- On the kernel's own records -----------------------------------------------------

  /** struct attack_event, the source address as it came off the wire. */
  datatype Attack = Attack(af: Byte, reason: Byte, v4: seq<Byte>, v6: seq<Byte>, timestamp: U64) {
    predicate Valid() {
      (af == 4 || af == 6) && |v4| == 4 && |v6| == 16
    }

    /** What the drain makes of the record: an IPv4 source comes out back to front. */
    function Shown(): Event
      requires Valid()
    {
      Event(if af == 4 then Ipv4([v4[3], v4[2], v4[1], v4[0]]) else Ipv6(v6), reason, timestamp)
    }

    function Encode(): (b: seq<Byte>)
      requires Valid()
      ensures |b| == PAYLOAD
    {
      [af, reason, 0, 0] + v4 + v6 + LE32(timestamp % 0x1_0000_0000) + LE32(timestamp / 0x1_0000_0000)
    }

    /** The low half of the time stamp. */
    function Low(): U32 {
      timestamp % 0x1_0000_0000
    }
  }

  /** A finished record at cons: its length, the kernel's page offset, and the event. */
  predicate Record(b: seq<Byte>, cons: U64, a: Attack) {
    var h := HeaderAt(cons);
    a.Valid() && h + 8 + PAYLOAD <= |b| && U32At(b, h) == 32 && b[h + 8..h + 40] == a.Encode()
  }

  /** The mapping the dashboard asks for first: the data area twice in a row. */
  predicate Mapped(b: seq<Byte>) {
    |b| == DATA + 2 * RB_SIZE && b[DATA..DATA + RB_SIZE] == b[DATA + RB_SIZE..]
  }

  lemma Mirrored(b: seq<Byte>, i: nat)
    requires Mapped(b) && DATA <= i < DATA + RB_SIZE
    ensures b[i] == b[i + RB_SIZE]
  {
    assert b[i] == b[DATA..DATA + RB_SIZE][i - DATA] == b[DATA + RB_SIZE..][i - DATA];
  }

  lemma EventSlice(b: seq<Byte>, p: nat)
    requires p + PAYLOAD <= |b|
    ensures EventAt(b, p) == EventAt(b[p..p + 32], 0)
  {
    var e := b[p..p + 32];
    assert forall i :: 0 <= i < 32 ==> e[i] == b[p + i];
    assert e[8..24] == b[p + 8..p + 24];
  }

  lemma DecodeEncode(a: Attack)
    requires a.Valid()
    ensures EventAt(a.Encode(), 0) == a.Shown() && U32At(a.Encode(), 24) == a.Low()
  {
    var e, low, high := a.Encode(), LE32(a.timestamp % 0x1_0000_0000), LE32(a.timestamp / 0x1_0000_0000);
    LE32RoundTrip(a.timestamp % 0x1_0000_0000);
    LE32RoundTrip(a.timestamp / 0x1_0000_0000);
    assert e[8..24] == a.v6;
    var front := [a.af, a.reason, 0, 0] + a.v4 + a.v6;
    assert |front| == 24 && e == front + low + high;
    assert forall i :: 0 <= i < 4 ==> e[24 + i] == low[i];
    assert forall i :: 0 <= i < 4 ==> e[28 + i] == high[i];
    assert U32At(e, 24) == U32At(low, 0) && U32At(e, 28) == U32At(high, 0);
  }

  /** A record is decoded: its reason, its time, and an IPv6 source exactly. */
  lemma RecordDecoded(b: seq<Byte>, cons: U64, a: Attack)
    requires Record(b, cons, a)
    ensures EventAt(b, HeaderAt(cons) + 8) == a.Shown()
    ensures Advance(b, cons) == Some((32, [a.Shown()]))
  {
    DecodeEncode(a);
    EventSlice(b, HeaderAt(cons) + 8);
  }

  /** An IPv4 source is printed back to front, so it is right if and only if it is a palindrome. */
  lemma FirstEventDecoded(b: seq<Byte>, cons: U64, prod: U64, a: Attack)
    requires cons < prod && cons + 32 < TWO64 && Record(b, cons, a)
    ensures var d := Drain(b, cons, prod);
            && d.events != [] && d.events[0] == a.Shown()
            && (a.af == 4 ==> (d.events[0].ip == Ipv4(a.v4) <==> a.v4[0] == a.v4[3] && a.v4[1] == a.v4[2]))
  {
    RecordDecoded(b, cons, a);
  }

  /**
   The records of the kernel are 40 bytes apart, header included, but the position moves by
   32: the next "header" the drain looks at is the low half of the event's time stamp.
   */
  lemma NextHeaderIsTimestamp(b: seq<Byte>, cons: U64, a: Attack)
    requires Mapped(b) && cons + 32 < TWO64 && Record(b, cons, a)
    ensures U32At(b, HeaderAt(cons + 32)) == a.Low()
  {
    var h, h', e := HeaderAt(cons), HeaderAt(cons + 32), a.Encode();
    DecodeEncode(a);
    assert forall i :: 0 <= i < 32 ==> b[h + 8 + i] == e[i];
    Wrapped(cons);
    if h' != h + 32 {
      Mirrored(b, h');
      Mirrored(b, h' + 1);
      Mirrored(b, h' + 2);
      Mirrored(b, h' + 3);
    }
    assert b[h'] == e[24] && b[h' + 1] == e[25] && b[h' + 2] == e[26] && b[h' + 3] == e[27];
  }

  lemma Wrapped(cons: U64)
    requires cons + 32 < TWO64
    ensures HeaderAt(cons + 32) == HeaderAt(cons) + 32 || HeaderAt(cons + 32) == HeaderAt(cons) + 32 - RB_SIZE
  {
    var k, r := cons / RB_SIZE, cons % RB_SIZE;
    assert cons + 32 == k * RB_SIZE + (r + 32);
    if r + 32 < RB_SIZE {
      assert (k * RB_SIZE + (r + 32)) % RB_SIZE == r + 32;
    } else {
      assert cons + 32 == (k + 1) * RB_SIZE + (r + 32 - RB_SIZE);
      assert ((k + 1) * RB_SIZE + (r + 32 - RB_SIZE)) % RB_SIZE == r + 32 - RB_SIZE;
    }
  }

  // ----- When the drain finds what is there ----------------------------------------------

  /** One iteration: how much more than eight bytes it advances, and whether it takes what it finds for a record. */
  datatype Turn = Turn(extra: nat, taken: bool)

  type Turns = U64 -> Option<Turn>

  /** What a header makes the drain do. */
  function Stamp(header: U32): Option<Turn> {
    if Flagged(header) then if RecordSize(header) == 0 then None else Some(Turn(RecordSize(header) - 8, false))
    else Some(Turn(if RecordSize(header) == 0 then 0 else RecordSize(header) - 8, true))
  }

  /** The drain's turn at each position of a whole mapping. */
  function TurnsOf(b: seq<Byte>): Turns
    requires |b| == DATA + 2 * RB_SIZE
  {
    (cons: U64) => Stamp(U32At(b, HeaderAt(cons)))
  }

  lemma AdvanceIsTurn(b: seq<Byte>, cons: U64)
    requires |b| == DATA + 2 * RB_SIZE
    ensures match TurnsOf(b)(cons)
            case None => Advance(b, cons).None?
            case Some(Turn(extra, taken)) =>
              Advance(b, cons) == Some((8 + extra, if taken then [EventAt(b, HeaderAt(cons) + 8)] else []))
  {
  }

  /** The positions at which something is taken for a record. */
  function Sites(next: Turns, cons: U64, prod: U64): seq<nat>
    decreases prod - cons
  {
    if cons >= prod then []
    else match next(cons)
      case None => []
      case Some(Turn(extra, taken)) =>
        var rest := if cons + 8 + extra >= TWO64 then [] else Sites(next, cons + 8 + extra, prod);
        if taken then [cons] + rest else rest
  }

  /** One turn: a site if something is taken for a record, and after it only sites further on. */
  lemma SitesTurn(next: Turns, cons: U64, prod: U64)
    requires cons < prod
    ensures match next(cons)
            case None => Sites(next, cons, prod) == []
            case Some(Turn(extra, taken)) =>
              var rest := if cons + 8 + extra >= TWO64 then [] else Sites(next, cons + 8 + extra, prod);
              && Sites(next, cons, prod) == (if taken then [cons] + rest else rest)
              && (forall s :: s in rest ==> cons + 8 + extra <= s)
              && (cons + 8 + extra >= prod ==> rest == [])
  {
    if next(cons).Some? && cons + 8 + next(cons).value.extra < TWO64 {
      SitesAhead(next, cons + 8 + next(cons).value.extra, prod);
    }
  }

  ghost predicate EventsAt(b: seq<Byte>, sites: seq<nat>, events: seq<Event>) {
    |sites| == |events| && forall i :: 0 <= i < |sites| ==>
      sites[i] < TWO64 && HeaderAt(sites[i]) + 8 + PAYLOAD <= |b| && events[i] == EventAt(b, HeaderAt(sites[i]) + 8)
  }

  /** The events of a drain are what it reads at its sites. */
  lemma {:induction false} SitesGiveEvents(b: seq<Byte>, cons: U64, prod: U64)
    requires |b| == DATA + 2 * RB_SIZE
    ensures EventsAt(b, Sites(TurnsOf(b), cons, prod), Drain(b, cons, prod).events)
    decreases prod - cons
  {
    AdvanceIsTurn(b, cons);
    var turn := TurnsOf(b)(cons);
    if cons < prod && turn.Some? {
      var later := cons + 8 + turn.value.extra;
      assert EventsAt(b, [cons], [EventAt(b, HeaderAt(cons) + 8)]);
      if later < TWO64 {
        SitesGiveEvents(b, later, prod);
        var rest, events := Sites(TurnsOf(b), later, prod), Drain(b, later, prod).events;
        EventsCons(b, cons, rest, events);
        assert [] + events == events;
      }
    }
  }

  lemma EventsCons(b: seq<Byte>, cons: U64, sites: seq<nat>, events: seq<Event>)
    requires EventsAt(b, sites, events) && |b| == DATA + 2 * RB_SIZE
    ensures EventsAt(b, [cons] + sites, [EventAt(b, HeaderAt(cons) + 8)] + events)
  {
  }

  lemma {:induction false} SitesAhead(next: Turns, cons: U64, prod: U64)
    ensures forall s :: s in Sites(next, cons, prod) ==> cons <= s
    decreases prod - cons
  {
    if cons < prod && next(cons).Some? && cons + 8 + next(cons).value.extra < TWO64 {
      SitesAhead(next, cons + 8 + next(cons).value.extra, prod);
    }
  }

  /** A record at cons, and behind its 32 bytes a time stamp that acts like `stamp`. */
  predicate RecordTurns(next: Turns, cons: nat, stamp: Option<Turn>) {
    cons + 32 < TWO64 && next(cons) == Some(Turn(24, true)) && next(cons + 32) == stamp
  }

  /** Records one after the other, 40 bytes apart. */
  predicate Follows(next: Turns, cons: nat, stamps: seq<Option<Turn>>)
    decreases |stamps|
  {
    stamps == [] || (RecordTurns(next, cons, stamps[0]) && Follows(next, cons + 40, stamps[1..]))
  }

  function Places(cons: nat, n: nat): (ps: seq<nat>)
    ensures |ps| == n
    decreases n
  {
    if n == 0 then [] else [cons] + Places(cons + 40, n - 1)
  }

  predicate Reads(stamp: Option<Turn>) {
    stamp.Some? && stamp.value.taken
  }

  /** Every time stamp but the last puts the drain back on its way, and the last one is not taken for a record. */
  predicate Harmless(stamps: seq<Option<Turn>>) {
    if stamps == [] then true
    else if |stamps| == 1 then !Reads(stamps[0])
    else stamps[0] == Some(Turn(0, false)) && Harmless(stamps[1..])
  }

  /** The sites from a record on. */
  lemma AfterRecord(next: Turns, cons: U64, prod: U64, stamp: Option<Turn>)
    requires RecordTurns(next, cons, stamp) && cons + 40 <= prod
    ensures var rest := Sites(next, cons + 32, prod);
            && Sites(next, cons, prod) == [cons] + rest
            && (Reads(stamp) ==> rest != [] && rest[0] == cons + 32)
            && (stamp == Some(Turn(0, false)) ==> rest == Sites(next, cons + 40, prod))
            && (!Reads(stamp) && stamp != Some(Turn(0, false)) ==> forall s :: s in rest ==> cons + 40 < s)
            && (!Reads(stamp) && cons + 40 == prod ==> rest == [])
  {
    SitesTurn(next, cons, prod);
    SitesTurn(next, cons + 32, prod);
  }

  lemma {:induction false} SitesArePlacesIff(next: Turns, cons: nat, stamps: seq<Option<Turn>>)
    requires Follows(next, cons, stamps) && cons + 40 * |stamps| < TWO64
    ensures Sites(next, cons, cons + 40 * |stamps|) == Places(cons, |stamps|) <==> Harmless(stamps)
    decreases |stamps|
  {
    if stamps != [] {
      var prod := cons + 40 * |stamps|;
      var rest, there := Sites(next, cons + 32, prod), Places(cons + 40, |stamps| - 1);
      AfterRecord(next, cons, prod, stamps[0]);
      SameTails(cons, rest, there);
      if |stamps| > 1 {
        SitesArePlacesIff(next, cons + 40, stamps[1..]);
        assert there[0] == cons + 40 && there[0] in there;
      }
    }
  }

  lemma SameTails(p: nat, s: seq<nat>, t: seq<nat>)
    ensures [p] + s == [p] + t <==> s == t
  {
    assert ([p] + s)[1..] == s && ([p] + t)[1..] == t;
  }

  // ----- On bytes ------------------------------------------------------------------------

  predicate Pending(b: seq<Byte>, cons: nat, attacks: seq<Attack>)
    decreases |attacks|
  {
    attacks == [] || (cons + 40 < TWO64 && Record(b, cons, attacks[0]) && Pending(b, cons + 40, attacks[1..]))
  }

  function Stamps(attacks: seq<Attack>): (stamps: seq<Option<Turn>>)
    ensures |stamps| == |attacks|
  {
    if attacks == [] then [] else [Stamp(attacks[0].Low())] + Stamps(attacks[1..])
  }

  lemma RecordGivesTurns(b: seq<Byte>, cons: U64, a: Attack)
    requires Mapped(b) && cons + 40 < TWO64 && Record(b, cons, a)
    ensures RecordTurns(TurnsOf(b), cons, Stamp(a.Low()))
  {
    NextHeaderIsTimestamp(b, cons, a);
    var next := TurnsOf(b);
    assert next(cons) == Stamp(32);
    assert next(cons + 32) == Stamp(a.Low());
  }

  lemma {:induction false} PendingFollows(b: seq<Byte>, cons: nat, attacks: seq<Attack>)
    requires Mapped(b) && Pending(b, cons, attacks)
    ensures Follows(TurnsOf(b), cons, Stamps(attacks))
    decreases |attacks|
  {
    if attacks != [] {
      RecordGivesTurns(b, cons, attacks[0]);
      PendingFollows(b, cons + 40, attacks[1..]);
    }
  }

  /**
   Every time stamp but the last has bit 30 or 31 set and from 1 to 8 in its low 28 bits, and
   the last one has bit 30 or 31 set.
   */
  predicate Lucky(attacks: seq<Attack>) {
    && (forall i :: 0 <= i < |attacks| - 1 ==> Flagged(attacks[i].Low()) && 1 <= attacks[i].Low() % 0x1000_0000 <= 8)
    && (attacks != [] ==> Flagged(attacks[|attacks| - 1].Low()))
  }

  lemma StampIs(low: U32)
    ensures Reads(Stamp(low)) <==> !Flagged(low)
    ensures Stamp(low) == Some(Turn(0, false)) <==> Flagged(low) && 1 <= low % 0x1000_0000 <= 8
    ensures Stamp(low) == Some(Turn(0, true)) <==> !Flagged(low) && low % 0x1000_0000 <= 8
  {
  }

  lemma {:induction false} LuckyIsHarmless(attacks: seq<Attack>)
    ensures Harmless(Stamps(attacks)) <==> Lucky(attacks)
  {
    if attacks != [] {
      var later := attacks[1..];
      LuckyIsHarmless(later);
      StampIs(attacks[0].Low());
      assert Stamps(attacks)[1..] == Stamps(later);
      if |attacks| > 1 {
        assert later[|later| - 1] == attacks[|attacks| - 1];
        assert forall i :: 0 <= i < |later| - 1 ==> later[i] == attacks[i + 1];
        assert forall i :: 1 <= i < |attacks| - 1 ==> attacks[i] == later[i - 1];
      }
    }
  }

  lemma FindsIff(next: Turns, cons: U64, attacks: seq<Attack>)
    requires Follows(next, cons, Stamps(attacks)) && cons + 40 * |attacks| < TWO64
    ensures Sites(next, cons, cons + 40 * |attacks|) == Places(cons, |attacks|) <==> Lucky(attacks)
  {
    SitesArePlacesIff(next, cons, Stamps(attacks));
    LuckyIsHarmless(attacks);
  }

  /**
   Any number of pending records, wherever they lie in the ring: the drain reads exactly the
   records that are there, if and only if their time stamps are lucky.
   */
  lemma DrainFindsRecordsIff(b: seq<Byte>, cons: U64, attacks: seq<Attack>)
    requires Mapped(b) && Pending(b, cons, attacks) && cons + 40 * |attacks| < TWO64
    ensures Sites(TurnsOf(b), cons, cons + 40 * |attacks|) == Places(cons, |attacks|) <==> Lucky(attacks)
  {
    PendingFollows(b, cons, attacks);
    FindsIff(TurnsOf(b), cons, attacks);
  }

  function Reports(attacks: seq<Attack>): (events: seq<Event>)
    requires forall a :: a in attacks ==> a.Valid()
    ensures |events| == |attacks|
  {
    if attacks == [] then [] else [attacks[0].Shown()] + Reports(attacks[1..])
  }

  lemma ReportCons(b: seq<Byte>, cons: U64, a: Attack, sites: seq<nat>, events: seq<Event>)
    requires |b| == DATA + 2 * RB_SIZE && Record(b, cons, a) && EventsAt(b, sites, events)
    ensures EventsAt(b, [cons] + sites, [a.Shown()] + events)
  {
    RecordDecoded(b, cons, a);
    EventsCons(b, cons, sites, events);
  }

  lemma {:induction false} PlacesGiveReports(b: seq<Byte>, cons: nat, attacks: seq<Attack>)
    requires |b| == DATA + 2 * RB_SIZE && Pending(b, cons, attacks)
    ensures (forall a :: a in attacks ==> a.Valid()) && EventsAt(b, Places(cons, |attacks|), Reports(attacks))
    decreases |attacks|
  {
    if attacks != [] {
      PlacesGiveReports(b, cons + 40, attacks[1..]);
      ReportCons(b, cons, attacks[0], Places(cons + 40, |attacks| - 1), Reports(attacks[1..]));
      assert attacks == [attacks[0]] + attacks[1..];
    }
  }

  lemma LuckySites(b: seq<Byte>, cons: U64, attacks: seq<Attack>, prod: U64)
    requires Mapped(b) && Pending(b, cons, attacks) && prod == cons + 40 * |attacks| && Lucky(attacks)
    ensures Sites(TurnsOf(b), cons, prod) == Places(cons, |attacks|)
  {
    DrainFindsRecordsIff(b, cons, attacks);
  }

  /** With lucky time stamps the drain reports all pending records in order, and nothing else. */
  lemma LuckyRecordsAreReported(b: seq<Byte>, cons: U64, attacks: seq<Attack>, prod: U64)
    requires Mapped(b) && Pending(b, cons, attacks) && prod == cons + 40 * |attacks| && Lucky(attacks)
    ensures (forall a :: a in attacks ==> a.Valid()) && Drain(b, cons, prod).events == Reports(attacks)
  {
    PlacesGiveReports(b, cons, attacks);
    LuckySites(b, cons, attacks, prod);
    OnlyEventsAt(b, cons, prod, Places(cons, |attacks|), Reports(attacks));
  }

  lemma OnlyEventsAt(b: seq<Byte>, cons: U64, prod: U64, sites: seq<nat>, events: seq<Event>)
    requires |b| == DATA + 2 * RB_SIZE && Sites(TurnsOf(b), cons, prod) == sites && EventsAt(b, sites, events)
    ensures Drain(b, cons, prod).events == events
  {
    SitesGiveEvents(b, cons, prod);
    SameEvents(b, sites, Drain(b, cons, prod).events, events);
  }

  lemma SameEvents(b: seq<Byte>, sites: seq<nat>, e: seq<Event>, e': seq<Event>)
    requires EventsAt(b, sites, e) && EventsAt(b, sites, e')
    ensures e == e'
  {
  }

  /** One pending record is reported, and nothing else, if and only if bit 30 or 31 of its time stamp is set. */
  lemma OneRecordIff(b: seq<Byte>, cons: U64, a: Attack)
    requires Mapped(b) && Record(b, cons, a) && cons + 40 < TWO64
    ensures Drain(b, cons, cons + 40).events == [a.Shown()] <==> a.Low() >= 0x4000_0000
  {
    RecordGivesTurns(b, cons, a);
    AfterRecord(TurnsOf(b), cons, cons + 40, Stamp(a.Low()));
    StampIs(a.Low());
    SitesGiveEvents(b, cons, cons + 40);
    FirstEventDecoded(b, cons, cons + 40, a);
  }

  /**
   Of two pending records the second is read where it lies if and only if the low 28 bits of
   the first one's time stamp are at most 8, and not zero when bit 30 or 31 is set.
   */
  lemma SecondRecordReadIff(b: seq<Byte>, cons: U64, prod: U64, a: Attack, a': Attack)
    requires Mapped(b) && Record(b, cons, a) && cons + 80 <= prod && Record(b, cons + 40, a')
    ensures cons + 40 in Sites(TurnsOf(b), cons, prod) <==>
              a.Low() % 0x1000_0000 <= 8 && (Flagged(a.Low()) ==> a.Low() % 0x1000_0000 > 0)
  {
    RecordGivesTurns(b, cons, a);
    RecordGivesTurns(b, cons + 40, a');
    StampIs(a.Low());
    SecondSite(TurnsOf(b), cons, prod, Stamp(a.Low()));
  }

  lemma SecondSite(next: Turns, cons: U64, prod: U64, stamp: Option<Turn>)
    requires RecordTurns(next, cons, stamp) && cons + 80 <= prod && next(cons + 40) == Some(Turn(24, true))
    ensures cons + 40 in Sites(next, cons, prod) <==> stamp.Some? && stamp.value.extra == 0
  {
    AfterRecord(next, cons, prod, stamp);
    assert Sites(next, cons + 40, prod)[0] == cons + 40;
    if stamp.Some? && cons + 40 + stamp.value.extra < TWO64 {
      SitesAhead(next, cons + 40 + stamp.value.extra, prod);
    }
  }

  /**
   Where the drain ends after one record, and how much it reports: behind the length that the
   time stamp gives, rounded up, or right behind the 32 bytes if that is a flagged zero.
   */
  lemma OneRecordEnds(b: seq<Byte>, cons: U64, a: Attack)
    requires Mapped(b) && Record(b, cons, a) && cons + 0x2000_0000 < TWO64
    ensures var d := Drain(b, cons, cons + 40);
            var len := a.Low() % 0x1000_0000;
            && !d.raised
            && |d.events| == (if a.Low() >= 0x4000_0000 then 1 else 2)
            && (if a.Low() >= 0x4000_0000 && len == 0 then d.cons == cons + 32
                else d.cons % 8 == cons % 8 && cons + 32 + len <= d.cons && d.cons < cons + 40 + Max(len, 1))
  {
    RecordDecoded(b, cons, a);
    NextHeaderIsTimestamp(b, cons, a);
    AdvanceIs(b, cons + 32);
    AdvanceFits(b, cons + 32);
    ConsumerKeepsAlignment(b, cons, cons + 40);
    OneRecordDrain(b, cons, a);
  }

  lemma FirstTurn(b: seq<Byte>, cons: U64, prod: U64, size: nat, found: seq<Event>)
    requires cons < prod && Advance(b, cons) == Some((size, found)) && cons + size < TWO64
    ensures Drain(b, cons, prod) == Preceded(found, 1, Drain(b, cons + size, prod))
  {
  }

  lemma LastTurn(b: seq<Byte>, cons: U64, prod: U64)
    requires cons < prod && (Advance(b, cons).Some? ==> prod <= cons + Advance(b, cons).value.0 < TWO64)
    ensures Drain(b, cons, prod)
         == match Advance(b, cons)
            case None => Drained([], cons, 1, false)
            case Some((size, found)) => Drained(found, cons + size, 1, false)
  {
    if Advance(b, cons).Some? {
      var (size, found) := Advance(b, cons).value;
      FirstTurn(b, cons, prod, size, found);
      assert found + [] == found;
    }
  }

  lemma OneRecordDrain(b: seq<Byte>, cons: U64, a: Attack)
    requires Mapped(b) && Record(b, cons, a) && cons + 0x2000_0000 < TWO64
    ensures Drain(b, cons, cons + 40)
         == match Advance(b, cons + 32)
            case None => Drained([a.Shown()], cons + 32, 2, false)
            case Some((size, found)) => Drained([a.Shown()] + found, cons + 32 + size, 2, false)
  {
    RecordDecoded(b, cons, a);
    FirstTurn(b, cons, cons + 40, 32, [a.Shown()]);
    AdvanceFits(b, cons + 32);
    LastTurn(b, cons + 32, cons + 40);
    assert [a.Shown()] + [] == [a.Shown()];
  }
}
