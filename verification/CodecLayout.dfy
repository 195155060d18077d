/**
 * The bytes of the five messages, written out: the tags of the descriptors as literal bytes, lengths and numbers as
 * varints, and varints by the value of their bytes.
 */
module CodecLayout {
  import opened Wrappers
  import opened CStrings
  import opened Messages
  import opened Numbers
  import opened Conversions
  import opened Wire
  import opened Codec
  import opened Buffers

  // ---------- Varints by value ----------

  /** Byte i of a varint holds the i-th digit to the base 128, with the top bit set in all but the last byte. */
  lemma {:induction false} VarintByte(n: nat, i: nat)
    requires i < |Varint(n)|
    ensures Power(128, i) > 0 &&
            Varint(n)[i] == Quotient(n, Power(128, i)) % 128 + if i + 1 < |Varint(n)| then 128 else 0
  {
    hide Quotient;
    PowerPositive(128, i);
    QuotientBy(n);
    if i > 0 {
      VarintByte(n / 128, i - 1);
      DivideTwice(n, 128, Power(128, i - 1));
      assert Varint(n)[i] == Varint(n / 128)[i - 1];
    }
  }

  /** A varint has exactly as many bytes as the number has digits to the base 128, and at least one. */
  lemma {:induction false} VarintDigits(n: nat)
    ensures |Varint(n)| >= 1 && n < Power(128, |Varint(n)|)
    ensures |Varint(n)| > 1 ==> n >= Power(128, |Varint(n)| - 1)
  {
    if n >= 128 {
      VarintDigits(n / 128);
      var k := |Varint(n / 128)|;
      assert |Varint(n)| == k + 1;
      assert n < 128 * (n / 128 + 1) <= 128 * Power(128, k);
      if k > 1 {
        assert n >= 128 * (n / 128) >= 128 * Power(128, k - 1);
      } else {
        assert Power(128, 1) == 128;
      }
    } else {
      assert Power(128, 1) == 128;
    }
  }

  lemma Short(n: nat)
    requires n < 128
    ensures Varint(n) == [n]
  {
  }

  lemma Long(n: nat)
    requires 128 <= n < 128 * 128
    ensures Varint(n) == [128 + n % 128, n / 128]
  {
    Short(n / 128);
  }

  // ---------- Blocks ----------

  lemma BlockBytes(field: nat, bytes: seq<byte>)
    ensures EncodeRecords([Block(field, bytes)]) == Varint(8 * field + 2) + Varint(|bytes|) + bytes
  {
    OneRecord(Block(field, bytes));
  }

  lemma NumberBytes(field: nat, n: nat)
    ensures EncodeRecords([Number(field, n)]) == Varint(8 * field) + Varint(n)
  {
    OneRecord(Number(field, n));
  }

  /** data: field 1, left out if it is empty. */
  lemma DataBytes(d: DataMessage)
    ensures PackData(d) == if d.data == [] then [] else [0x0A] + Varint(|d.data|) + d.data
  {
    BlockBytes(1, d.data);
    Short(10);
  }

  /** str: field 1, left out if it is empty. */
  lemma StringBytes(s: NullableString)
    ensures PackString(s) == if s.str == [] then [] else [0x0A] + Varint(|s.str|) + s.str
  {
    BlockBytes(1, s.str);
    Short(10);
  }

  lemma EntryKeyBytes(key: Option<NullableString>)
    ensures EncodeRecords(KeyRecords(key)) ==
            if key.None? then [] else [0x0A] + Varint(|PackString(key.value)|) + PackString(key.value)
  {
    hide PackString;
    if key.Some? {
      BlockBytes(1, PackString(key.value));
    }
    Short(10);
  }

  lemma EntryValueBytes(value: Option<DataMessage>)
    ensures EncodeRecords(ValueRecords(value)) ==
            if value.None? then [] else [0x12] + Varint(|PackData(value.value)|) + PackData(value.value)
  {
    hide PackData;
    if value.Some? {
      BlockBytes(2, PackData(value.value));
    }
    Short(18);
  }

  /** key: field 1; value: field 2; each left out if it is NULL. */
  lemma EntryMessageBytes(e: EntryMessage)
    ensures PackEntry(e) ==
            (if e.key.None? then [] else [0x0A] + Varint(|PackString(e.key.value)|) + PackString(e.key.value)) +
            (if e.value.None? then [] else [0x12] + Varint(|PackData(e.value.value)|) + PackData(e.value.value))
  {
    hide EncodeRecords, KeyRecords, PackData, PackString, ValueRecords, Varint;
    JoinRecords(KeyRecords(e.key), ValueRecords(e.value));
    EntryKeyBytes(e.key);
    EntryValueBytes(e.value);
  }

  /** keys: field 1, repeated, one record for every key. */
  lemma KeysBytes(keys: seq<CString>)
    ensures PackKeys(KeysMessage([])) == []
    ensures keys != [] ==>
              PackKeys(KeysMessage(keys)) == [0x0A] + Varint(|keys[0]|) + keys[0] + PackKeys(KeysMessage(keys[1..]))
  {
    hide Varint;
    if keys != [] {
      JoinRecords([Block(1, keys[0])], KeysRecords(keys[1..]));
      BlockBytes(1, keys[0]);
      Short(10);
    }
  }

  // ---------- Messages ----------

  /** op_code: field 1, left out if it is 0; a negative one is written as a 64-bit two's complement number. */
  lemma OpCodeBytes(opCode: int)
    requires IsInt32(opCode)
    ensures EncodeRecords(OpCodeRecords(opCode)) ==
            if opCode == 0 then []
            else [0x08] + Varint(if opCode < 0 then opCode + 0x1_0000_0000_0000_0000 else opCode)
  {
    if opCode != 0 {
      NumberBytes(1, Unsigned64(opCode));
      Short(8);
    }
  }

  /**
   * The content: key is field 10, value 20, entry 30, keys 40, int_result 50 and op_id 60. A number v is written as 2v,
   * or as -2v - 1 if it is negative; a NULL pointer is left out.
   */
  lemma ContentBytes(m: Message)
    requires IntsInRange(m)
    ensures EncodeRecords(ContentRecords(m.content)) ==
            match m.content
            case NotSet => []
            case Key(key) => if key.None? then [] else [0x52] + Varint(|key.value|) + key.value
            case Value(value) =>
              if value.None? then [] else [0xA2, 0x01] + Varint(|PackData(value.value)|) + PackData(value.value)
            case Entry(entry) =>
              if entry.None? then [] else [0xF2, 0x01] + Varint(|PackEntry(entry.value)|) + PackEntry(entry.value)
            case Keys(keys) =>
              if keys.None? then [] else [0xC2, 0x02] + Varint(|PackKeys(keys.value)|) + PackKeys(keys.value)
            case IntResult(v) => [0x90, 0x03] + Varint(if v < 0 then -2 * v - 1 else 2 * v)
            case OpId(v) => [0xE0, 0x03] + Varint(if v < 0 then -2 * v - 1 else 2 * v)
  {
    hide EncodeRecords, PackData, PackEntry, PackKeys, Varint;
    TwoByteTags();
    match m.content
    case NotSet => NoRecords();
    case Key(key) => if key.Some? { BlockBytes(10, key.value); } else { NoRecords(); }
    case Value(value) => if value.Some? { BlockBytes(20, PackData(value.value)); } else { NoRecords(); }
    case Entry(entry) => if entry.Some? { BlockBytes(30, PackEntry(entry.value)); } else { NoRecords(); }
    case Keys(keys) => if keys.Some? { BlockBytes(40, PackKeys(keys.value)); } else { NoRecords(); }
    case IntResult(v) => NumberBytes(50, ZigZag(v));
    case OpId(v) => NumberBytes(60, ZigZag(v));
  }

  lemma NoRecords()
    ensures EncodeRecords([]) == []
  {
  }

  lemma TwoByteTags()
    ensures Varint(82) == [0x52] && Varint(162) == [0xA2, 0x01] && Varint(242) == [0xF2, 0x01]
    ensures Varint(322) == [0xC2, 0x02] && Varint(400) == [0x90, 0x03] && Varint(480) == [0xE0, 0x03]
  {
    Short(82);
    Long(162);
    Long(242);
    Long(322);
    Long(400);
    Long(480);
  }

  /** A message: the op code, then the content. */
  lemma MessageBytes(m: Message)
    requires IntsInRange(m)
    ensures Pack(m) == EncodeRecords(OpCodeRecords(m.opCode)) + EncodeRecords(ContentRecords(m.content))
  {
    JoinRecords(OpCodeRecords(m.opCode), ContentRecords(m.content));
  }

  /** An entry of the tree, with its key and value as they are. */
  lemma TreeEntryBytes(key: CString, value: seq<byte>)
    ensures var k := if key == [] then [] else [0x0A] + Varint(|key|) + key;
            var v := if value == [] then [] else [0x0A] + Varint(|value|) + value;
            EntryBytes(EntryRecord(Some(key), Some(value))) == [0x0A] + Varint(|k|) + k + ([0x12] + Varint(|v|) + v)
  {
    hide Varint;
    EntryMessageBytes(EntryMessage(Some(NullableString(key)), Some(DataMessage(value))));
    StringBytes(NullableString(key));
    DataBytes(DataMessage(value));
  }

  /** Two requests and the bytes they are sent as: get of the key "a", and size. */
  lemma KnownBytes()
    ensures Pack(Message(30, Key(Some([0x61])))) == [0x08, 0x1E, 0x52, 0x01, 0x61]
    ensures Unpack([0x08, 0x1E, 0x52, 0x01, 0x61]) == Some(Message(30, Key(Some([0x61]))))
    ensures Pack(Message(10, NotSet)) == [0x08, 0x0A]
  {
    hide EncodeRecords, Pack, Unpack, Varint;
    var get, size := Message(30, Key(Some([0x61]))), Message(10, NotSet);
    MessageBytes(get);
    OpCodeBytes(30);
    ContentBytes(get);
    Short(30);
    Short(1);
    assert [0x08] + [30] + ([0x52] + ([1] + [0x61])) == [0x08, 0x1E, 0x52, 0x01, 0x61];
    MessageUnpacked(get);
    MessageBytes(size);
    OpCodeBytes(10);
    ContentBytes(size);
    Short(10);
    assert [0x08] + [10] + [] == [0x08, 0x0A];
  }
}
