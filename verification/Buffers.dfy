/** serialization.c for data, entries and messages: packing into a buffer of exactly the computed size, unpacking. */
module Buffers {
  import opened Wrappers
  import opened CStrings
  import opened Messages
  import opened Conversions
  import opened Wire
  import opened Codec

  /** A message_t; its message is NULL after bytes that could not be unpacked. */
  datatype MessageHandle = MessageHandle(msg: Option<Message>)

  /** The bytes of an entry as entry_to_buffer writes them. */
  function EntryBytes(e: EntryRecord): seq<byte> {
    PackEntry(EntryToMsg(e))
  }

  /** The entry that buffer_to_entry makes of the bytes; None if they cannot be unpacked. */
  function EntryOf(bytes: seq<byte>): Option<EntryRecord> {
    var m := UnpackEntry(bytes);
    if m.None? then None else Some(MsgToEntry(m.value))
  }

  /** The bytes fit into the buffer of the computed size, and they fill it. */
  method FillExactly(bytes: seq<byte>, size: nat) returns (buffer: array<byte>)
    requires |bytes| == size
    ensures fresh(buffer) && buffer[..] == bytes
  {
    buffer := new byte[size];
    for i := 0 to size
      invariant buffer[..i] == bytes[..i]
    {
      buffer[i] := bytes[i];
    }
  }

  method DataToBuffer(data: array?<byte>) returns (size: int, buffer: array?<byte>)
    requires data != null ==> DataSize(DataMessage(data[..])) < TWO_31
    ensures buffer == null <==> data == null
    ensures data == null ==> size == -1
    ensures data != null ==>
              && fresh(buffer) && size == buffer.Length && buffer[..] == PackData(DataMessage(data[..]))
              && UnpackData(buffer[..]) == Some(DataMessage(data[..]))
  {
    var m := DataToMsg(data);
    if m.None? {
      return -1, null;
    }
    DataFits(m.value);
    size := DataSize(m.value);
    buffer := FillExactly(PackData(m.value), size);
    DataUnpacked(m.value);
  }

  /** The first size bytes of the buffer are the message; data that cannot be unpacked gives NULL. */
  method BufferToData(buffer: array?<byte>, size: int) returns (data: array?<byte>)
    requires buffer != null ==> size <= buffer.Length
    ensures data == null <==> buffer == null || size < 0 || UnpackData(buffer[..size]).None?
    ensures data != null ==> fresh(data) && data[..] == UnpackData(buffer[..size]).value.data
  {
    if buffer == null || size < 0 {
      return null;
    }
    data := MsgToData(UnpackData(buffer[..size]));
  }

  method EntryToBuffer(entry: Option<EntryRecord>) returns (size: int, buffer: array?<byte>)
    requires entry.Some? ==> EntrySize(EntryToMsg(entry.value)) < TWO_31
    ensures buffer == null <==> entry.None?
    ensures entry.None? ==> size == -1
    ensures entry.Some? ==>
              && fresh(buffer) && size == buffer.Length && buffer[..] == EntryBytes(entry.value)
              && EntryOf(buffer[..]) == entry
  {
    if entry.None? {
      return -1, null;
    }
    var m := EntryToMsg(entry.value);
    EntryFits(m);
    size := EntrySize(m);
    buffer := FillExactly(PackEntry(m), size);
    EntryReturns(entry.value);
  }

  /** buffer_to_entry on the address of the byte at the given offset. */
  method BufferToEntry(buffer: array?<byte>, offset: nat, size: int) returns (entry: Option<EntryRecord>)
    requires buffer != null ==> offset + size <= buffer.Length
    ensures entry == if buffer == null || size < 0 then None else EntryOf(buffer[offset..offset + size])
  {
    if buffer == null || size < 0 {
      return None;
    }
    var m := UnpackEntry(buffer[offset..offset + size]);
    if m.None? {
      return None;
    }
    entry := Some(MsgToEntry(m.value));
  }

  /** An entry comes back exactly from its bytes: NULL and empty keys, NULL and empty values kept apart. */
  lemma EntryReturns(e: EntryRecord)
    ensures EntryOf(EntryBytes(e)) == Some(e)
  {
    EntryUnpacked(EntryToMsg(e));
    EntryRoundTrip(e, EntryToMsg(e));
  }

  method MessageToBuffer(message: Option<MessageHandle>) returns (size: int, buffer: array?<byte>)
    requires message.Some? && message.value.msg.Some? ==>
               IntsInRange(message.value.msg.value) && PackedSize(message.value.msg.value) < TWO_31
    ensures buffer == null <==> message.None? || message.value.msg.None?
    ensures buffer == null ==> size == -1
    ensures buffer != null ==>
              fresh(buffer) && size == buffer.Length && buffer[..] == Pack(message.value.msg.value)
  {
    if message.None? || message.value.msg.None? {
      return -1, null;
    }
    var m := message.value.msg.value;
    MessageFits(m);
    size := PackedSize(m);
    buffer := FillExactly(Pack(m), size);
  }

  /** Bytes that cannot be unpacked give a message_t without a message. */
  method BufferToMessage(buffer: array?<byte>, size: int) returns (message: Option<MessageHandle>)
    requires buffer != null ==> size <= buffer.Length
    ensures message == if buffer == null || size < 0 then None else Some(MessageHandle(Unpack(buffer[..size])))
  {
    if buffer == null || size < 0 {
      return None;
    }
    message := Some(MessageHandle(Unpack(buffer[..size])));
  }
}
