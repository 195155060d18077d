/** The four bytes of an int in the memory of a little-endian host, and the network byte order. */
module HostInts {
  import opened CStrings
  import opened Wire

  const SIZE_OF_INT := 4

  // ---------- Digits ----------

  /** The n lowest base-256 digits of an unsigned number, lowest first. */
  function Digits(u: nat, n: nat): (bs: seq<byte>)
    ensures |bs| == n
  {
    if n == 0 then [] else [u % 0x100] + Digits(u / 0x100, n - 1)
  }

  function OfDigits(bs: seq<byte>): nat {
    if bs == [] then 0 else (bs[0] as int) + 0x100 * OfDigits(bs[1..])
  }

  /** How many numbers n digits can tell apart. */
  function Range(n: nat): nat {
    if n == 0 then 1 else 0x100 * Range(n - 1)
  }

  lemma {:induction false} DigitsBack(u: nat, n: nat)
    requires u < Range(n)
    ensures OfDigits(Digits(u, n)) == u
  {
    if n > 0 {
      DigitsBack(u / 0x100, n - 1);
      assert Digits(u, n)[1..] == Digits(u / 0x100, n - 1);
    }
  }

  lemma {:induction false} DigitsKept(bs: seq<byte>)
    ensures OfDigits(bs) < Range(|bs|)
    ensures Digits(OfDigits(bs), |bs|) == bs
  {
    if bs != [] {
      DigitsKept(bs[1..]);
      var first: int, rest := bs[0], OfDigits(bs[1..]);
      assert (first + 0x100 * rest) / 0x100 == rest && (first + 0x100 * rest) % 0x100 == first;
      assert bs == [bs[0]] + bs[1..];
    }
  }

  lemma IntRange()
    ensures Range(SIZE_OF_INT) == TWO_32
  {
    assert Range(4) == 0x100 * Range(3) && Range(3) == 0x100 * Range(2) && Range(2) == 0x100 * Range(1);
  }

  // ---------- Ints in memory ----------

  /** The bytes of a 32-bit two's complement int, lowest byte first. */
  function ToMemory(v: int): (bs: seq<byte>)
    requires IsInt32(v)
    ensures |bs| == SIZE_OF_INT
  {
    Digits(if v < 0 then v + TWO_32 else v, SIZE_OF_INT)
  }

  function FromMemory(bs: seq<byte>): (v: int)
    requires |bs| == SIZE_OF_INT
    ensures IsInt32(v)
  {
    Signed32(OfDigits(bs))
  }

  lemma FromToMemory(v: int)
    requires IsInt32(v)
    ensures FromMemory(ToMemory(v)) == v
  {
    IntRange();
    DigitsBack(if v < 0 then v + TWO_32 else v, SIZE_OF_INT);
  }

  lemma ToFromMemory(bs: seq<byte>)
    requires |bs| == SIZE_OF_INT
    ensures ToMemory(FromMemory(bs)) == bs
  {
    IntRange();
    DigitsKept(bs);
  }

  /** The bytes themselves: the lowest one first. */
  lemma MemoryBytes(v: int)
    requires IsInt32(v)
    ensures var u := if v < 0 then v + 0x1_0000_0000 else v;
            ToMemory(v) == [u % 0x100, u / 0x100 % 0x100, u / 0x1_0000 % 0x100, u / 0x100_0000]
  {
    var u := if v < 0 then v + 0x1_0000_0000 else v;
    assert u / 0x100 / 0x100 == u / 0x1_0000 && u / 0x1_0000 / 0x100 == u / 0x100_0000;
    assert Digits(u, 4) == [u % 0x100] + Digits(u / 0x100, 3);
    assert Digits(u / 0x100, 3) == [u / 0x100 % 0x100] + Digits(u / 0x1_0000, 2);
    assert Digits(u / 0x1_0000, 2) == [u / 0x1_0000 % 0x100] + Digits(u / 0x100_0000, 1);
    assert Digits(u / 0x100_0000, 1) == [u / 0x100_0000];
  }

  // ---------- Network order ----------

  function Reversed(bs: seq<byte>): (rs: seq<byte>)
    requires |bs| == SIZE_OF_INT
    ensures |rs| == SIZE_OF_INT && forall i :: 0 <= i < SIZE_OF_INT ==> rs[i] == bs[SIZE_OF_INT - 1 - i]
  {
    [bs[3], bs[2], bs[1], bs[0]]
  }

  /** htonl and ntohl: the int whose bytes in memory are those of v in reverse. */
  function SwapBytes(v: int): (w: int)
    requires IsInt32(v)
    ensures IsInt32(w)
  {
    FromMemory(Reversed(ToMemory(v)))
  }

  /** An int in network byte order has its highest byte first in memory; swapping twice is no change. */
  lemma NetworkOrder(v: int)
    requires IsInt32(v)
    ensures ToMemory(SwapBytes(v)) == Reversed(ToMemory(v))
    ensures SwapBytes(SwapBytes(v)) == v
  {
    ToFromMemory(Reversed(ToMemory(v)));
    assert Reversed(Reversed(ToMemory(v))) == ToMemory(v);
    FromToMemory(v);
  }

  /** What an int in network order says: its four bytes from the highest to the lowest, as a signed number. */
  lemma NetworkValue(bs: seq<byte>)
    requires |bs| == SIZE_OF_INT
    ensures var a: int, b: int, c: int, d: int := bs[0], bs[1], bs[2], bs[3];
            var u := 0x100_0000 * a + 0x1_0000 * b + 0x100 * c + d;
            SwapBytes(FromMemory(bs)) == if a < 0x80 then u else u - 0x1_0000_0000
  {
    var a: int, b: int, c: int, d: int := bs[0], bs[1], bs[2], bs[3];
    ToFromMemory(bs);
    var rs := Reversed(bs);
    assert rs == [d, c, b, a];
    FourDigits(rs);
  }

  lemma FourDigits(bs: seq<byte>)
    requires |bs| == SIZE_OF_INT
    ensures var a: int, b: int, c: int, d: int := bs[0], bs[1], bs[2], bs[3];
            var u := a + 0x100 * b + 0x1_0000 * c + 0x100_0000 * d;
            OfDigits(bs) == u && FromMemory(bs) == if d < 0x80 then u else u - 0x1_0000_0000
  {
    assert OfDigits(bs) == (bs[0] as int) + 0x100 * OfDigits(bs[1..]);
    assert OfDigits(bs[1..]) == (bs[1] as int) + 0x100 * OfDigits(bs[2..]) by { assert bs[1..][1..] == bs[2..]; }
    assert OfDigits(bs[2..]) == (bs[2] as int) + 0x100 * OfDigits(bs[3..]) by { assert bs[2..][1..] == bs[3..]; }
    assert OfDigits(bs[3..]) == bs[3] by { assert bs[3..][1..] == []; }
  }
}
