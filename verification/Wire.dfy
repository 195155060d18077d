/**
 * Records of the Protocol Buffers encoding: base 128 varints, ZigZag for signed numbers, and records that hold either a
 * varint or a block of bytes with its length in front.
 */
module Wire {
  import opened Wrappers
  import opened CStrings

  const TWO_31 := 0x8000_0000
  const TWO_32 := 0x1_0000_0000
  const TWO_64 := 0x1_0000_0000_0000_0000

  predicate IsInt32(v: int) {
    -TWO_31 <= v < TWO_31
  }

  /** What a parser took off the front of the bytes, and what it left. */
  datatype Parsed<+T> = Parsed(value: T, rest: seq<byte>)

  // ---------- Base 128 varints ----------

  /** Seven bits a byte, lowest first; all bytes but the last have the top bit set. */
  function Varint(n: nat): seq<byte> {
    if n < 128 then [n] else [128 + n % 128] + Varint(n / 128)
  }

  function ReadVarint(bs: seq<byte>): (p: Option<Parsed<nat>>)
    ensures p.Some? ==> |p.value.rest| < |bs|
  {
    if bs == [] then None
    else if bs[0] < 128 then Some(Parsed(bs[0], bs[1..]))
    else
      match ReadVarint(bs[1..])
      case None => None
      case Some(p) => Some(Parsed(bs[0] - 128 + 128 * p.value, p.rest))
  }

  lemma {:induction false} VarintRoundTrip(n: nat, rest: seq<byte>)
    ensures ReadVarint(Varint(n) + rest) == Some(Parsed(n, rest))
  {
    if n >= 128 {
      VarintRoundTrip(n / 128, rest);
      assert (Varint(n) + rest)[1..] == Varint(n / 128) + rest;
    }
  }

  /** The size of a varint as the packing code looks it up, for 32-bit values. */
  function VarintSize(n: nat): nat {
    if n < 0x80 then 1
    else if n < 0x4000 then 2
    else if n < 0x20_0000 then 3
    else if n < 0x1000_0000 then 4
    else 5
  }

  /** The table of sizes is right for every value that fits in 35 bits. */
  lemma VarintLength(n: nat)
    requires n < 0x8_0000_0000
    ensures |Varint(n)| == VarintSize(n)
  {
    if n >= 0x80 {
      assert |Varint(n)| == 1 + |Varint(n / 0x80)|;
      if n >= 0x4000 {
        assert |Varint(n / 0x80)| == 1 + |Varint(n / 0x80 / 0x80)|;
        if n >= 0x20_0000 {
          assert |Varint(n / 0x80 / 0x80)| == 1 + |Varint(n / 0x80 / 0x80 / 0x80)|;
        }
      }
    }
  }

  // ---------- Signed numbers ----------

  /** A negative int32 is written as the 64-bit two's complement number. */
  function Unsigned64(v: int): nat
    requires IsInt32(v)
  {
    if v < 0 then v + TWO_64 else v
  }

  /** The low 32 bits of a varint, read as a signed number. */
  function Signed32(n: nat): int {
    var low := n % TWO_32;
    if low < TWO_31 then low else low - TWO_32
  }

  /** ZigZag: small absolute values become small unsigned numbers. */
  function ZigZag(v: int): nat {
    if v < 0 then -2 * v - 1 else 2 * v
  }

  function UnZigZag(n: nat): int {
    if n % 2 == 0 then n / 2 else -(n / 2) - 1
  }

  /** The low 32 bits of a number in two parts. */
  lemma LowBits(low: nat, high: nat)
    requires low < TWO_32
    ensures (low + TWO_32 * high) % TWO_32 == low
  {
    assert (low + TWO_32 * high) / TWO_32 == high;
  }

  lemma TwosComplementRoundTrip(v: int)
    requires IsInt32(v)
    ensures Signed32(Unsigned64(v)) == v
  {
    if v < 0 {
      LowBits(v + TWO_32, TWO_32 - 1);
    } else {
      LowBits(v, 0);
    }
  }

  lemma ZigZagRoundTrip(v: int)
    requires IsInt32(v)
    ensures ZigZag(v) < TWO_32 && UnZigZag(ZigZag(v)) == v
  {
    if v < 0 {
      assert ZigZag(v) == 2 * (-v - 1) + 1;
    }
  }

  lemma SignedRoundTrip(v: int)
    requires IsInt32(v)
    ensures Signed32(Unsigned64(v)) == v
    ensures ZigZag(v) < TWO_32 && UnZigZag(ZigZag(v)) == v
  {
    hide Signed32, Unsigned64, UnZigZag, ZigZag;
    TwosComplementRoundTrip(v);
    ZigZagRoundTrip(v);
  }

  // ---------- Records ----------

  datatype Record = Number(field: nat, number: nat) | Block(field: nat, bytes: seq<byte>)

  function EncodeRecord(r: Record): (bs: seq<byte>)
    ensures bs != []
  {
    match r
    case Number(field, n) => Varint(8 * field) + Varint(n)
    case Block(field, bytes) => Varint(8 * field + 2) + (Varint(|bytes|) + bytes)
  }

  function EncodeRecords(rs: seq<Record>): seq<byte> {
    if rs == [] then [] else EncodeRecord(rs[0]) + EncodeRecords(rs[1..])
  }

  function ParseRecord(bs: seq<byte>): (p: Option<Parsed<Record>>)
    ensures p.Some? ==> |p.value.rest| < |bs|
  {
    match ReadVarint(bs)
    case None => None
    case Some(tag) =>
      match ReadVarint(tag.rest)
      case None => None
      case Some(n) =>
        if tag.value % 8 == 0 then Some(Parsed(Number(tag.value / 8, n.value), n.rest))
        else if tag.value % 8 == 2 && n.value <= |n.rest| then
          Some(Parsed(Block(tag.value / 8, n.rest[..n.value]), n.rest[n.value..]))
        else None
  }

  function ParseRecords(bs: seq<byte>): Option<seq<Record>>
    decreases |bs|
  {
    if bs == [] then Some([])
    else
      match ParseRecord(bs)
      case None => None
      case Some(p) =>
        match ParseRecords(p.rest)
        case None => None
        case Some(rs) => Some([p.value] + rs)
  }

  lemma NumberRoundTrip(field: nat, n: nat, rest: seq<byte>)
    ensures ParseRecord(EncodeRecord(Number(field, n)) + rest) == Some(Parsed(Number(field, n), rest))
  {
    assert EncodeRecord(Number(field, n)) + rest == Varint(8 * field) + (Varint(n) + rest);
    VarintRoundTrip(8 * field, Varint(n) + rest);
    VarintRoundTrip(n, rest);
  }

  lemma BlockRoundTrip(field: nat, bytes: seq<byte>, rest: seq<byte>)
    ensures ParseRecord(EncodeRecord(Block(field, bytes)) + rest) == Some(Parsed(Block(field, bytes), rest))
  {
    var length := Varint(|bytes|);
    assert EncodeRecord(Block(field, bytes)) + rest == Varint(8 * field + 2) + (length + (bytes + rest));
    VarintRoundTrip(8 * field + 2, length + (bytes + rest));
    VarintRoundTrip(|bytes|, bytes + rest);
    assert (bytes + rest)[..|bytes|] == bytes && (bytes + rest)[|bytes|..] == rest;
  }

  lemma RecordRoundTrip(r: Record, rest: seq<byte>)
    ensures ParseRecord(EncodeRecord(r) + rest) == Some(Parsed(r, rest))
  {
    match r
    case Number(field, n) => NumberRoundTrip(field, n, rest);
    case Block(field, bytes) => BlockRoundTrip(field, bytes, rest);
  }

  /** Any sequence of records is read back exactly, in order. */
  lemma {:induction false} RecordsRoundTrip(rs: seq<Record>)
    ensures ParseRecords(EncodeRecords(rs)) == Some(rs)
  {
    if rs != [] {
      RecordRoundTrip(rs[0], EncodeRecords(rs[1..]));
      RecordsRoundTrip(rs[1..]);
      assert [rs[0]] + rs[1..] == rs;
    }
  }

  // ---------- Sizes ----------

  /** The size of a tag as the packing code looks it up. */
  function TagSize(field: nat): nat {
    if field < 0x10 then 1
    else if field < 0x800 then 2
    else if field < 0x4_0000 then 3
    else if field < 0x200_0000 then 4
    else 5
  }

  lemma TagLength(field: nat, wireType: nat)
    requires wireType < 8 && field < 0x2000_0000
    ensures |Varint(8 * field + wireType)| == TagSize(field)
  {
    VarintLength(8 * field + wireType);
  }

  /** The size of a block with its tag and length in front. */
  function BlockSize(field: nat, length: nat): nat {
    TagSize(field) + VarintSize(length) + length
  }

  lemma BlockLength(field: nat, bytes: seq<byte>)
    requires field < 0x2000_0000 && |bytes| < TWO_32
    ensures |EncodeRecord(Block(field, bytes))| == BlockSize(field, |bytes|)
  {
    TagLength(field, 2);
    VarintLength(|bytes|);
  }
}
