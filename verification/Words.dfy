/** Fixed-width machine words and the few constants shared by the packet filter's arithmetic. */
module Words {
  const TWO64 := 0x1_0000_0000_0000_0000

  type U32 = x: int | 0 <= x < 0x1_0000_0000
  type U64 = x: int | 0 <= x < 0x1_0000_0000_0000_0000

  /** One token, in the nano-tokens used by the exact buckets; also nanoseconds per second. */
  const NANO := 1_000_000_000

  /** Unsigned 64-bit subtraction, wrapping below zero. */
  function Sub64(a: U64, b: U64): U64 {
    (a - b) % 0x1_0000_0000_0000_0000
  }

  /** Unsigned 64-bit multiplication, keeping the low word. */
  function Mul64(a: U64, b: U64): U64 {
    (a * b) % 0x1_0000_0000_0000_0000
  }

  /** Increments of 32-bit and 64-bit counters, wrapping to zero. */
  function Inc32(a: U32): U32 {
    (a + 1) % 0x1_0000_0000
  }

  function Inc64(a: U64): U64 {
    (a + 1) % 0x1_0000_0000_0000_0000
  }

  function Min(a: int, b: int): int {
    if a <= b then a else b
  }

  function Max(a: int, b: int): int {
    if a <= b then b else a
  }

  /** A wrapped quantity grows no faster than the quantity itself. */
  lemma WrapGrowth(p: nat, d: nat)
    ensures (p + d) % 0x1_0000_0000_0000_0000 <= p % 0x1_0000_0000_0000_0000 + d
  {
    var k, r := p / 0x1_0000_0000_0000_0000, p % 0x1_0000_0000_0000_0000;
    assert p + d == k * 0x1_0000_0000_0000_0000 + (r + d);
    assert (p + d) % 0x1_0000_0000_0000_0000 == (r + d) % 0x1_0000_0000_0000_0000;
  }

  lemma WrapAdd32(a: nat, b: nat)
    ensures (a % 0x1_0000_0000 + b) % 0x1_0000_0000 == (a + b) % 0x1_0000_0000
  {
    var k, r := a / 0x1_0000_0000, a % 0x1_0000_0000;
    assert a + b == k * 0x1_0000_0000 + (r + b);
    assert (k * 0x1_0000_0000 + (r + b)) % 0x1_0000_0000 == (r + b) % 0x1_0000_0000;
  }

  lemma WrapAdd64(a: nat, b: nat)
    ensures (a % 0x1_0000_0000_0000_0000 + b) % 0x1_0000_0000_0000_0000 == (a + b) % 0x1_0000_0000_0000_0000
  {
    var k, r := a / 0x1_0000_0000_0000_0000, a % 0x1_0000_0000_0000_0000;
    assert a + b == k * 0x1_0000_0000_0000_0000 + (r + b);
    assert (k * 0x1_0000_0000_0000_0000 + (r + b)) % 0x1_0000_0000_0000_0000 == (r + b) % 0x1_0000_0000_0000_0000;
  }

  datatype Option<+T> = None | Some(value: T)

  ghost predicate Nondecreasing(ts: seq<U64>, from: int) {
    && (forall i :: 0 <= i < |ts| ==> from <= ts[i])
    && (forall i, j :: 0 <= i <= j < |ts| ==> ts[i] <= ts[j])
  }
}
