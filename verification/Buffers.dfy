/** Filling byte buffers by index. */
module Buffers {
  import opened Bytes

  /** Writes into a buffer from an offset on, as much as there is room for. */
  method CopyInto(buf: array<Byte>, at: nat, src: seq<Byte>)
    requires at <= buf.Length
    modifies buf
    ensures
      var n := Min(|src|, buf.Length - at);
      buf[..] == old(buf[..at]) + src[..n] + old(buf[at + n..])
  {
    var n := Min(|src|, buf.Length - at);
    var i := 0;
    while i < n
      invariant i <= n
      invariant buf[..at] == old(buf[..at])
      invariant buf[at..at + i] == src[..i]
      invariant buf[at + i..] == old(buf[at + i..])
    {
      buf[at + i] := src[i];
      i := i + 1;
    }
  }

  method PutBe24(buf: array<Byte>, at: nat, x: U32)
    requires at + 3 <= buf.Length
    modifies buf
    ensures buf[at..at + 3] == Be24(x)
    ensures forall i :: 0 <= i < at || at + 3 <= i < buf.Length ==> buf[i] == old(buf[i])
  {
    buf[at], buf[at + 1], buf[at + 2] := x as int / 0x1_0000 % 0x100, x as int / 0x100 % 0x100, x as int % 0x100;
  }

  method PutBe32(buf: array<Byte>, at: nat, x: U32)
    requires at + 4 <= buf.Length
    modifies buf
    ensures buf[at..at + 4] == Be32(x)
    ensures forall i :: 0 <= i < at || at + 4 <= i < buf.Length ==> buf[i] == old(buf[i])
  {
    buf[at], buf[at + 1] := x as int / 0x100_0000 % 0x100, x as int / 0x1_0000 % 0x100;
    buf[at + 2], buf[at + 3] := x as int / 0x100 % 0x100, x as int % 0x100;
  }
}
