/** Bytes, machine integers and the big-endian fields of the RTMP wire formats. */
module Bytes {

  type Byte = x: int | 0 <= x < 0x100
  type U32 = x: int | 0 <= x < 0x1_0000_0000

  /** A Go `time.Duration`: signed 64-bit nanoseconds. */
  type Duration = x: int | -0x8000_0000_0000_0000 <= x < 0x8000_0000_0000_0000

  const MILLISECOND: int := 1_000_000
  const LIMIT24: int := 0x100_0000
  const LIMIT32: int := 0x1_0000_0000

  datatype Option<+T> = None | Some(value: T)

  function Min(a: nat, b: nat): nat {
    if a <= b then a else b
  }

  /** 32-bit unsigned addition and subtraction wrap around. */
  function Add32(a: U32, b: U32): U32 {
    (a + b) % LIMIT32
  }

  function Sub32(a: U32, b: U32): U32 {
    (a - b) % LIMIT32
  }

  /** Duration subtraction, which wraps at 64 bits. */
  function SubDuration(a: Duration, b: Duration): Duration {
    var d := a - b;
    if d >= 0x8000_0000_0000_0000 then d - 0x1_0000_0000_0000_0000
    else if d < -0x8000_0000_0000_0000 then d + 0x1_0000_0000_0000_0000
    else d
  }

  /** `uint32(d / time.Millisecond)`: division truncates toward zero, the conversion keeps 32 bits. */
  function Millis(d: Duration): U32 {
    if d >= 0 then (d as int / MILLISECOND) % LIMIT32 else -(-(d as int) / MILLISECOND) % LIMIT32
  }

  /** The duration is a whole number of milliseconds that fits `n` values. */
  predicate WholeMillis(d: Duration, n: int) {
    0 <= d < n * MILLISECOND && d % MILLISECOND == 0
  }

  function Be16(x: int): (b: seq<Byte>)
    requires 0 <= x
    ensures |b| == 2
  {
    [x / 0x100 % 0x100, x % 0x100]
  }

  function Be24(x: int): (b: seq<Byte>)
    requires 0 <= x
    ensures |b| == 3
  {
    [x / 0x1_0000 % 0x100, x / 0x100 % 0x100, x % 0x100]
  }

  function Be32(x: int): (b: seq<Byte>)
    requires 0 <= x
    ensures |b| == 4
  {
    [x / 0x100_0000 % 0x100, x / 0x1_0000 % 0x100, x / 0x100 % 0x100, x % 0x100]
  }

  function FromBe16(b: seq<Byte>): int
    requires |b| == 2
  {
    0x100 * (b[0] as int) + b[1]
  }

  function FromBe24(b: seq<Byte>): (x: U32)
    requires |b| == 3
    ensures x < LIMIT24
  {
    0x1_0000 * (b[0] as int) + 0x100 * (b[1] as int) + b[2]
  }

  function FromBe32(b: seq<Byte>): U32
    requires |b| == 4
  {
    0x100_0000 * (b[0] as int) + 0x1_0000 * (b[1] as int) + 0x100 * (b[2] as int) + b[3]
  }

  /** The low bytes of a number, with what is left above them. */
  lemma LowBytes(x: nat)
    ensures x / 0x1_0000 == x / 0x100 / 0x100 && x / 0x100_0000 == x / 0x1_0000 / 0x100
    ensures x == 0x1_0000 * (x / 0x1_0000) + 0x100 * (x / 0x100 % 0x100) + x % 0x100
    ensures x / 0x1_0000 == 0x100 * (x / 0x100_0000) + x / 0x1_0000 % 0x100
    ensures x / 0x100_0000 == 0x100 * (x / LIMIT32) + x / 0x100_0000 % 0x100
  {
    var y := x / 0x100;
    assert x == 0x100 * y + x % 0x100 && y == 0x100 * (y / 0x100) + y % 0x100;
    var z := x / 0x1_0000;
    assert x == 0x1_0000 * z + x % 0x1_0000 && z == 0x100 * (z / 0x100) + z % 0x100;
    var t := x / 0x100_0000;
    assert x == 0x100_0000 * t + x % 0x100_0000 && t == 0x100 * (t / 0x100) + t % 0x100;
  }

  /** Reading a field back keeps exactly the bits the field has room for. */
  lemma Be16RoundTrip(x: nat)
    ensures FromBe16(Be16(x)) == x % 0x1_0000
  {
    LowBytes(x);
  }

  lemma Be24RoundTrip(x: nat)
    ensures FromBe24(Be24(x)) == x % LIMIT24
  {
    LowBytes(x);
    var mid := 0x1_0000 * (x / 0x1_0000 % 0x100) + 0x100 * (x / 0x100 % 0x100) + x % 0x100;
    assert x == LIMIT24 * (x / LIMIT24) + mid && 0 <= mid < LIMIT24;
  }

  lemma Be32RoundTrip(x: nat)
    ensures FromBe32(Be32(x)) == x % LIMIT32
  {
    LowBytes(x);
    var mid := 0x1_0000 * (x / 0x1_0000 % 0x100) + 0x100 * (x / 0x100 % 0x100) + x % 0x100;
    var hi := 0x100_0000 * (x / 0x100_0000 % 0x100) + mid;
    assert x == LIMIT32 * (x / LIMIT32) + hi && 0 <= hi < LIMIT32;
  }

  /** Writing a field read gives its bytes. */
  lemma Be32OfBytes(b: seq<Byte>)
    requires |b| == 4
    ensures Be32(FromBe32(b)) == b
  {
    var x := FromBe32(b);
    var low := 0x100 * (b[2] as int) + b[3];
    var mid := 0x1_0000 * (b[1] as int) + low;
    assert x / 0x100_0000 == b[0] && x / 0x1_0000 == 0x100 * (b[0] as int) + b[1];
    assert x / 0x100 == 0x1_0000 * (b[0] as int) + 0x100 * (b[1] as int) + b[2];
  }

  function Pow2(k: nat): (p: nat)
    ensures p >= 1
  {
    if k == 0 then 1 else 2 * Pow2(k - 1)
  }

  /** Bitwise or. */
  function Or(a: nat, b: nat): nat {
    if a == 0 && b == 0 then 0
    else 2 * Or(a / 2, b / 2) + (if a % 2 == 1 || b % 2 == 1 then 1 else 0)
  }

  lemma {:induction false} OrBounded(a: nat, b: nat, k: nat)
    requires a < Pow2(k) && b < Pow2(k)
    ensures Or(a, b) < Pow2(k)
  {
    if k > 0 {
      OrBounded(a / 2, b / 2, k - 1);
    }
  }

  function OrByte(a: Byte, b: Byte): Byte {
    assert Pow2(8) == 0x100 by { assert Pow2(4) == 16; }
    OrBounded(a, b, 8);
    Or(a, b)
  }

  /** `m << k`. */
  function Shift(m: nat, k: nat): nat {
    if k == 0 then m else 2 * Shift(m, k - 1)
  }

  /** `m << k | lo` is a sum when `lo` fits the `k` low bits. */
  lemma {:induction false} OrOfShift(m: nat, lo: nat, k: nat)
    requires lo < Pow2(k)
    ensures Or(Shift(m, k), lo) == Shift(m, k) + lo
  {
    if k == 0 {
      OrZero(m);
    } else {
      OrOfShift(m, lo / 2, k - 1);
      OrOfEven(Shift(m, k - 1), lo);
    }
  }

  lemma OrOfEven(half: nat, lo: nat)
    ensures Or(2 * half, lo) == 2 * Or(half, lo / 2) + lo % 2
  {
    assert (2 * half) / 2 == half && (2 * half) % 2 == 0;
  }

  lemma {:induction false} OrZero(m: nat)
    ensures Or(m, 0) == m
  {
    if m > 0 {
      OrZero(m / 2);
    }
  }
}
