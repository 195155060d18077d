/** The bytes of the five messages, laid out as the field descriptors say. */
module Codec {
  import opened Wrappers
  import opened CStrings
  import opened Messages
  import opened Sequences
  import opened Wire

  const DATA := 1
  const STR := 1
  const ENTRY_KEY := 1
  const ENTRY_VALUE := 2
  const REPEATED_KEYS := 1
  const OP_CODE := 1
  const KEY := 10
  const VALUE := 20
  const ENTRY := 30
  const KEYS := 40
  const INT_RESULT := 50
  const OP_ID := 60

  // ---------- Packing ----------

  /** A field that holds no bytes is left out; its default is the same. */
  function UnlessEmpty(field: nat, bytes: seq<byte>): seq<Record> {
    if bytes == [] then [] else [Block(field, bytes)]
  }

  function PackData(d: DataMessage): seq<byte> {
    EncodeRecords(UnlessEmpty(DATA, d.data))
  }

  function PackString(s: NullableString): seq<byte> {
    EncodeRecords(UnlessEmpty(STR, s.str))
  }

  function KeyRecords(key: Option<NullableString>): seq<Record> {
    if key.None? then [] else [Block(ENTRY_KEY, PackString(key.value))]
  }

  function ValueRecords(value: Option<DataMessage>): seq<Record> {
    if value.None? then [] else [Block(ENTRY_VALUE, PackData(value.value))]
  }

  function PackEntry(e: EntryMessage): seq<byte> {
    EncodeRecords(KeyRecords(e.key) + ValueRecords(e.value))
  }

  /** Every key gets a record of its own, empty ones too. */
  function KeysRecords(keys: seq<CString>): seq<Record> {
    if keys == [] then [] else [Block(REPEATED_KEYS, keys[0])] + KeysRecords(keys[1..])
  }

  function PackKeys(k: KeysMessage): seq<byte> {
    EncodeRecords(KeysRecords(k.keys))
  }

  /** A selected number is written even if it is 0; a selected NULL pointer is left out. */
  function ContentRecords(c: Content): seq<Record> {
    match c
    case NotSet => []
    case Key(key) => if key.None? then [] else [Block(KEY, key.value)]
    case Value(value) => if value.None? then [] else [Block(VALUE, PackData(value.value))]
    case Entry(entry) => if entry.None? then [] else [Block(ENTRY, PackEntry(entry.value))]
    case Keys(keys) => if keys.None? then [] else [Block(KEYS, PackKeys(keys.value))]
    case IntResult(n) => [Number(INT_RESULT, ZigZag(n))]
    case OpId(n) => [Number(OP_ID, ZigZag(n))]
  }

  predicate IntsInRange(m: Message) {
    && IsInt32(m.opCode)
    && (m.content.IntResult? ==> IsInt32(m.content.intResult))
    && (m.content.OpId? ==> IsInt32(m.content.opId))
  }

  function OpCodeRecords(opCode: int): seq<Record>
    requires IsInt32(opCode)
  {
    if opCode == 0 then [] else [Number(OP_CODE, Unsigned64(opCode))]
  }

  function Pack(m: Message): seq<byte>
    requires IntsInRange(m)
  {
    EncodeRecords(OpCodeRecords(m.opCode) + ContentRecords(m.content))
  }

  // ---------- Unpacking ----------

  /** A C string ends at its first NUL. */
  function UntilNul(bytes: seq<byte>): CString {
    if bytes == [] || bytes[0] == 0 then [] else [bytes[0]] + UntilNul(bytes[1..])
  }

  /** The bytes of the last block of a field; None if there is none. */
  function LastBlock(rs: seq<Record>, field: nat): Option<seq<byte>> {
    if rs == [] then None
    else if rs[|rs| - 1].Block? && rs[|rs| - 1].field == field then Some(rs[|rs| - 1].bytes)
    else LastBlock(rs[..|rs| - 1], field)
  }

  function LastNumber(rs: seq<Record>, field: nat): Option<nat> {
    if rs == [] then None
    else if rs[|rs| - 1].Number? && rs[|rs| - 1].field == field then Some(rs[|rs| - 1].number)
    else LastNumber(rs[..|rs| - 1], field)
  }

  function UnpackData(bs: seq<byte>): Option<DataMessage> {
    match ParseRecords(bs)
    case None => None
    case Some(rs) =>
      var data := LastBlock(rs, DATA);
      Some(DataMessage(if data.None? then [] else data.value))
  }

  function UnpackString(bs: seq<byte>): Option<NullableString> {
    match ParseRecords(bs)
    case None => None
    case Some(rs) =>
      var str := LastBlock(rs, STR);
      Some(NullableString(if str.None? then [] else UntilNul(str.value)))
  }

  function UnpackEntry(bs: seq<byte>): Option<EntryMessage> {
    match ParseRecords(bs)
    case None => None
    case Some(rs) =>
      var keyBytes, valueBytes := LastBlock(rs, ENTRY_KEY), LastBlock(rs, ENTRY_VALUE);
      var key := if keyBytes.None? then None else UnpackString(keyBytes.value);
      var value := if valueBytes.None? then None else UnpackData(valueBytes.value);
      if (keyBytes.Some? && key.None?) || (valueBytes.Some? && value.None?) then None
      else Some(EntryMessage(key, value))
  }

  function AllKeys(rs: seq<Record>): seq<CString> {
    if rs == [] then []
    else if rs[0].Block? && rs[0].field == REPEATED_KEYS then [UntilNul(rs[0].bytes)] + AllKeys(rs[1..])
    else AllKeys(rs[1..])
  }

  function UnpackKeys(bs: seq<byte>): Option<KeysMessage> {
    match ParseRecords(bs)
    case None => None
    case Some(rs) => Some(KeysMessage(AllKeys(rs)))
  }

  function IsContent(r: Record): bool {
    if r.Number? then r.field == INT_RESULT || r.field == OP_ID
    else r.field == KEY || r.field == VALUE || r.field == ENTRY || r.field == KEYS
  }

  /** The members of the union share their storage, so the last one on the wire stays. */
  function LastContent(rs: seq<Record>): (r: Option<Record>)
    ensures r.Some? ==> IsContent(r.value)
  {
    if rs == [] then None
    else if IsContent(rs[|rs| - 1]) then Some(rs[|rs| - 1])
    else LastContent(rs[..|rs| - 1])
  }

  /** None if the bytes of a nested message cannot be read. */
  function ContentOf(r: Record): Option<Content>
    requires IsContent(r)
  {
    match r
    case Number(field, n) =>
      var v := UnZigZag(n % TWO_32);
      Some(if field == INT_RESULT then IntResult(v) else OpId(v))
    case Block(field, bytes) =>
      if field == KEY then Some(Key(Some(UntilNul(bytes))))
      else if field == VALUE then
        var value := UnpackData(bytes);
        if value.None? then None else Some(Value(value))
      else if field == ENTRY then
        var entry := UnpackEntry(bytes);
        if entry.None? then None else Some(Entry(entry))
      else
        var keys := UnpackKeys(bytes);
        if keys.None? then None else Some(Keys(keys))
  }

  function Unpack(bs: seq<byte>): Option<Message> {
    match ParseRecords(bs)
    case None => None
    case Some(rs) =>
      var opCode, content := LastNumber(rs, OP_CODE), LastContent(rs);
      var op := if opCode.None? then 0 else Signed32(opCode.value);
      if content.None? then Some(Message(op, NotSet))
      else
        match ContentOf(content.value)
        case None => None
        case Some(c) => Some(Message(op, c))
  }

  // ---------- Round trips ----------

  lemma {:induction false} UntilNulKeepsStrings(s: CString)
    ensures UntilNul(s) == s
  {
    if s != [] {
      assert s[0] in s;
      UntilNulKeepsStrings(s[1..]);
      assert [s[0]] + s[1..] == s;
    }
  }

  lemma DataUnpacked(d: DataMessage)
    ensures UnpackData(PackData(d)) == Some(d)
  {
    RecordsRoundTrip(UnlessEmpty(DATA, d.data));
  }

  lemma StringUnpacked(s: NullableString)
    ensures UnpackString(PackString(s)) == Some(s)
  {
    RecordsRoundTrip(UnlessEmpty(STR, s.str));
    UntilNulKeepsStrings(s.str);
  }

  lemma LastBlockOfOne(r: Record, field: nat)
    ensures LastBlock([r], field) == if r.Block? && r.field == field then Some(r.bytes) else None
  {
    assert [r][..0] == [];
  }

  /** A NULL key stays apart from an empty one, and a NULL value from one without bytes. */
  lemma EntryUnpacked(e: EntryMessage)
    ensures UnpackEntry(PackEntry(e)) == Some(e)
  {
    var k, v := KeyRecords(e.key), ValueRecords(e.value);
    RecordsRoundTrip(k + v);
    if e.key.Some? {
      StringUnpacked(e.key.value);
      LastBlockOfOne(k[0], ENTRY_KEY);
      LastBlockOfOne(k[0], ENTRY_VALUE);
    }
    if e.value.Some? {
      DataUnpacked(e.value.value);
      LastBlockOfOne(v[0], ENTRY_KEY);
      LastBlockOfOne(v[0], ENTRY_VALUE);
      assert (k + v)[..|k + v| - 1] == k;
    } else {
      assert k + v == k;
    }
  }

  lemma {:induction false} AllKeysFound(keys: seq<CString>)
    ensures AllKeys(KeysRecords(keys)) == keys
  {
    if keys != [] {
      UntilNulKeepsStrings(keys[0]);
      AllKeysFound(keys[1..]);
      assert KeysRecords(keys)[1..] == KeysRecords(keys[1..]);
      assert [keys[0]] + keys[1..] == keys;
    }
  }

  lemma KeysUnpacked(k: KeysMessage)
    ensures UnpackKeys(PackKeys(k)) == Some(k)
  {
    RecordsRoundTrip(KeysRecords(k.keys));
    AllKeysFound(k.keys);
  }

  lemma ContentUnpacked(m: Message)
    requires IntsInRange(m) && ContentPresent(m.content) && !m.content.NotSet?
    ensures |ContentRecords(m.content)| == 1 && IsContent(ContentRecords(m.content)[0])
    ensures ContentOf(ContentRecords(m.content)[0]) == Some(m.content)
  {
    hide PackData, PackEntry, PackKeys, Signed32, Unsigned64, UnpackData, UnpackEntry, UnpackKeys, UnZigZag, ZigZag;
    match m.content
    case Key(key) => UntilNulKeepsStrings(key.value);
    case Value(value) => DataUnpacked(value.value);
    case Entry(entry) => EntryUnpacked(entry.value);
    case Keys(keys) => KeysUnpacked(keys.value);
    case IntResult(n) => SignedRoundTrip(n);
    case OpId(n) => SignedRoundTrip(n);
  }

  /** What arrives: the message itself, except that a selected NULL pointer arrives as "not set". */
  function Arriving(m: Message): Message {
    if ContentPresent(m.content) then m else Message(m.opCode, NotSet)
  }

  lemma MessageUnpacked(m: Message)
    requires IntsInRange(m)
    ensures Unpack(Pack(m)) == Some(Arriving(m))
  {
    hide ContentOf, EncodeRecords, ParseRecords, Signed32, Unsigned64, UnZigZag, ZigZag;
    var op, c := OpCodeRecords(m.opCode), ContentRecords(m.content);
    RecordsRoundTrip(op + c);
    OpCodeUnpacked(m.opCode);
    if ContentPresent(m.content) && !m.content.NotSet? {
      ContentUnpacked(m);
      assert (op + c)[..|op + c| - 1] == op && (op + c)[|op + c| - 1] == c[0];
    } else {
      assert op + c == op;
    }
  }

  lemma OpCodeUnpacked(opCode: int)
    requires IsInt32(opCode)
    ensures var op := OpCodeRecords(opCode);
            && LastContent(op) == None
            && (if opCode == 0 then LastNumber(op, OP_CODE) == None
                else LastNumber(op, OP_CODE) == Some(Unsigned64(opCode)) && Signed32(Unsigned64(opCode)) == opCode)
  {
    SignedRoundTrip(opCode);
    var op := OpCodeRecords(opCode);
    assert op != [] ==> op[..0] == [];
  }

  /** A message survives exactly when its selected pointer is not NULL. */
  lemma MessageRoundTrip(m: Message)
    requires IntsInRange(m)
    ensures Unpack(Pack(m)) == Some(m) <==> ContentPresent(m.content)
  {
    MessageUnpacked(m);
  }

  /** No message that comes out of bytes selects a NULL pointer, so no request reaches a handler with one. */
  lemma UnpackedIsPresent(bs: seq<byte>)
    requires Unpack(bs).Some?
    ensures ContentPresent(Unpack(bs).value.content)
  {
    var content := LastContent(ParseRecords(bs).value);
    assert content.Some? ==> ContentPresent(ContentOf(content.value).value);
  }

  // ---------- Sizes ----------

  function DataSize(d: DataMessage): nat {
    if d.data == [] then 0 else BlockSize(DATA, |d.data|)
  }

  function StringSize(s: NullableString): nat {
    if s.str == [] then 0 else BlockSize(STR, |s.str|)
  }

  function EntrySize(e: EntryMessage): nat {
    (if e.key.None? then 0 else BlockSize(ENTRY_KEY, StringSize(e.key.value))) +
    (if e.value.None? then 0 else BlockSize(ENTRY_VALUE, DataSize(e.value.value)))
  }

  /** The tags of all keys are counted at once. */
  function KeysSize(k: KeysMessage): nat {
    TagSize(REPEATED_KEYS) * |k.keys| + KeysLengths(k.keys)
  }

  function KeysLengths(keys: seq<CString>): nat {
    if keys == [] then 0 else VarintSize(|keys[0]|) + |keys[0]| + KeysLengths(keys[1..])
  }

  function ContentSize(c: Content): nat {
    match c
    case NotSet => 0
    case Key(key) => if key.None? then 0 else BlockSize(KEY, |key.value|)
    case Value(value) => if value.None? then 0 else BlockSize(VALUE, DataSize(value.value))
    case Entry(entry) => if entry.None? then 0 else BlockSize(ENTRY, EntrySize(entry.value))
    case Keys(keys) => if keys.None? then 0 else BlockSize(KEYS, KeysSize(keys.value))
    case IntResult(n) => TagSize(INT_RESULT) + VarintSize(ZigZag(n))
    case OpId(n) => TagSize(OP_ID) + VarintSize(ZigZag(n))
  }

  function PackedSize(m: Message): nat {
    (if m.opCode == 0 then 0 else TagSize(OP_CODE) + if m.opCode < 0 then 10 else VarintSize(m.opCode)) +
    ContentSize(m.content)
  }

  lemma {:induction false} JoinRecords(a: seq<Record>, b: seq<Record>)
    ensures EncodeRecords(a + b) == EncodeRecords(a) + EncodeRecords(b)
  {
    if a == [] {
      assert a + b == b;
    } else {
      calc {
        EncodeRecords(a + b);
        { assert (a + b)[1..] == a[1..] + b; }
        EncodeRecord(a[0]) + EncodeRecords(a[1..] + b);
        { JoinRecords(a[1..], b); }
        EncodeRecord(a[0]) + (EncodeRecords(a[1..]) + EncodeRecords(b));
        { Regroup(EncodeRecord(a[0]), EncodeRecords(a[1..]), EncodeRecords(b)); }
        EncodeRecords(a) + EncodeRecords(b);
      }
    }
  }

  lemma OneRecord(r: Record)
    ensures EncodeRecords([r]) == EncodeRecord(r)
  {
    assert [r][1..] == [];
  }

  lemma OneBlock(field: nat, bytes: seq<byte>)
    requires field < 0x2000_0000 && |bytes| < TWO_32
    ensures |EncodeRecords([Block(field, bytes)])| == BlockSize(field, |bytes|)
  {
    OneRecord(Block(field, bytes));
    BlockLength(field, bytes);
  }

  lemma DataFits(d: DataMessage)
    requires DataSize(d) < TWO_31
    ensures |PackData(d)| == DataSize(d)
  {
    if d.data != [] {
      OneBlock(DATA, d.data);
    }
  }

  lemma StringFits(s: NullableString)
    requires StringSize(s) < TWO_31
    ensures |PackString(s)| == StringSize(s)
  {
    if s.str != [] {
      OneBlock(STR, s.str);
    }
  }

  /** The computed size of an entry is the number of bytes written, so the allocated buffer is filled exactly. */
  lemma EntryFits(e: EntryMessage)
    requires EntrySize(e) < TWO_31
    ensures |PackEntry(e)| == EntrySize(e)
  {
    JoinRecords(KeyRecords(e.key), ValueRecords(e.value));
    if e.key.Some? {
      StringFits(e.key.value);
      OneBlock(ENTRY_KEY, PackString(e.key.value));
    }
    if e.value.Some? {
      DataFits(e.value.value);
      OneBlock(ENTRY_VALUE, PackData(e.value.value));
    }
  }

  lemma {:induction false} KeysFit(keys: seq<CString>)
    requires KeysSize(KeysMessage(keys)) < TWO_31
    ensures |EncodeRecords(KeysRecords(keys))| == KeysSize(KeysMessage(keys))
  {
    if keys != [] {
      KeysFit(keys[1..]);
      JoinRecords([Block(REPEATED_KEYS, keys[0])], KeysRecords(keys[1..]));
      OneBlock(REPEATED_KEYS, keys[0]);
    }
  }

  lemma NumberFits(field: nat, n: nat)
    requires field < 0x2000_0000 && n < TWO_32
    ensures |EncodeRecords([Number(field, n)])| == TagSize(field) + VarintSize(n)
  {
    OneRecord(Number(field, n));
    TagLength(field, 0);
    VarintLength(n);
  }

  lemma ContentFits(m: Message)
    requires IntsInRange(m) && PackedSize(m) < TWO_31
    ensures |EncodeRecords(ContentRecords(m.content))| == ContentSize(m.content)
  {
    match m.content
    case NotSet =>
    case Key(key) => if key.Some? { OneBlock(KEY, key.value); }
    case Value(value) => if value.Some? { DataFits(value.value); OneBlock(VALUE, PackData(value.value)); }
    case Entry(entry) => if entry.Some? { EntryFits(entry.value); OneBlock(ENTRY, PackEntry(entry.value)); }
    case Keys(keys) => if keys.Some? { KeysFit(keys.value.keys); OneBlock(KEYS, PackKeys(keys.value)); }
    case IntResult(n) => NumberFits(INT_RESULT, ZigZag(n));
    case OpId(n) => NumberFits(OP_ID, ZigZag(n));
  }

  /** A negative int32 takes ten bytes. */
  lemma NegativeLength(v: int)
    requires IsInt32(v) && v < 0
    ensures |Varint(Unsigned64(v))| == 10
  {
    var n := Unsigned64(v) / 0x8_0000_0000;
    assert |Varint(Unsigned64(v))| == 5 + |Varint(n)| by { FiveDigits(Unsigned64(v)); }
    assert n == 0x1FFF_FFFF;
    VarintLength(n);
  }

  lemma FiveDigits(n: nat)
    requires n >= 0x8_0000_0000
    ensures |Varint(n)| == 5 + |Varint(n / 0x8_0000_0000)|
  {
    var a := n / 128;
    var b := a / 128;
    var c := b / 128;
    var d := c / 128;
    assert |Varint(n)| == 1 + |Varint(a)| && |Varint(a)| == 1 + |Varint(b)| && |Varint(b)| == 1 + |Varint(c)|;
    assert |Varint(c)| == 1 + |Varint(d)| && |Varint(d)| == 1 + |Varint(d / 128)|;
    assert d / 128 == n / 0x8_0000_0000;
  }

  lemma OpCodeFits(opCode: int)
    requires IsInt32(opCode) && opCode != 0
    ensures |EncodeRecords(OpCodeRecords(opCode))| ==
            TagSize(OP_CODE) + if opCode < 0 then 10 else VarintSize(opCode)
  {
    if opCode < 0 {
      OneRecord(Number(OP_CODE, Unsigned64(opCode)));
      TagLength(OP_CODE, 0);
      NegativeLength(opCode);
    } else {
      NumberFits(OP_CODE, opCode);
    }
  }

  /** The computed size of a message is the number of bytes written, so the allocated buffer is filled exactly. */
  lemma MessageFits(m: Message)
    requires IntsInRange(m) && PackedSize(m) < TWO_31
    ensures |Pack(m)| == PackedSize(m)
  {
    JoinRecords(OpCodeRecords(m.opCode), ContentRecords(m.content));
    ContentFits(m);
    if m.opCode != 0 {
      OpCodeFits(m.opCode);
    }
  }

  /** The sizes that the serialization tests count on, for a key of 5 and a value of 14 bytes. */
  lemma KnownSizes(key: CString, data: seq<byte>)
    requires |key| == 5 && |data| == 14
    ensures |PackEntry(EntryMessage(Some(NullableString(key)), Some(DataMessage(data))))| == 27
    ensures |PackEntry(EntryMessage(None, Some(DataMessage(data))))| == 18
    ensures |PackEntry(EntryMessage(Some(NullableString(key)), None))| == 9
    ensures |PackEntry(EntryMessage(Some(NullableString(key)), Some(DataMessage([]))))| == 11
    ensures |PackEntry(EntryMessage(None, None))| == 0
  {
    EntryFits(EntryMessage(Some(NullableString(key)), Some(DataMessage(data))));
    EntryFits(EntryMessage(None, Some(DataMessage(data))));
    EntryFits(EntryMessage(Some(NullableString(key)), None));
    EntryFits(EntryMessage(Some(NullableString(key)), Some(DataMessage([]))));
    EntryFits(EntryMessage(None, None));
  }
}
