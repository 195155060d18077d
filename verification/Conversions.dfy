/** Conversions between the structures of the tree and the messages that carry them. */
module Conversions {
  import opened Wrappers
  import opened CStrings
  import opened Messages

  /** An entry_t; key and value may be NULL, and a value of size 0 is the empty byte sequence. */
  datatype EntryRecord = EntryRecord(key: Option<CString>, value: Option<seq<byte>>)

  function StringToMsg(s: Option<CString>): Option<NullableString> {
    if s.None? then None else Some(NullableString(s.value))
  }

  function MsgToString(m: Option<NullableString>): Option<CString> {
    if m.None? then None else Some(m.value.str)
  }

  function EntryToMsg(e: EntryRecord): EntryMessage {
    EntryMessage(StringToMsg(e.key), if e.value.None? then None else Some(DataMessage(e.value.value)))
  }

  function MsgToEntry(m: EntryMessage): EntryRecord {
    EntryRecord(MsgToString(m.key), if m.value.None? then None else Some(m.value.value.data))
  }

  /** data_to_msg: the message holds a copy of the bytes; no block, no message. */
  method DataToMsg(data: array?<byte>) returns (m: Option<DataMessage>)
    ensures m == if data == null then None else Some(DataMessage(data[..]))
  {
    if data == null {
      return None;
    }
    m := Some(DataMessage(data[..]));
  }

  /** msg_to_data: a block of its own with the bytes of the message. */
  method MsgToData(m: Option<DataMessage>) returns (data: array?<byte>)
    ensures data == null <==> m.None?
    ensures data != null ==> fresh(data) && data[..] == m.value.data
  {
    if m.None? {
      return null;
    }
    var bytes := m.value.data;
    data := new byte[|bytes|](i requires 0 <= i < |bytes| => bytes[i]);
  }

  /** ks are the strings before the first NULL of the array. */
  ghost predicate StringsOf(a: seq<Option<CString>>, ks: seq<CString>) {
    |ks| < |a| && a[|ks|] == None && forall i :: 0 <= i < |ks| ==> a[i] == Some(ks[i])
  }

  method KeysCount(keys: array<Option<CString>>) returns (index: nat)
    requires None in keys[..]
    ensures index < keys.Length && keys[index] == None
    ensures forall i :: 0 <= i < index ==> keys[i].Some?
  {
    index := 0;
    while keys[index] != None
      invariant index < keys.Length
      invariant forall i :: 0 <= i < index ==> keys[i].Some?
      invariant None in keys[index..]
      decreases keys.Length - index
    {
      assert keys[index..] == [keys[index]] + keys[index + 1..];
      index := index + 1;
    }
  }

  method StrArrCopy(strings: array<Option<CString>>, len: nat) returns (copied: seq<CString>)
    requires len <= strings.Length
    requires forall i :: 0 <= i < len ==> strings[i].Some?
    ensures |copied| == len
    ensures forall i :: 0 <= i < len ==> strings[i] == Some(copied[i])
  {
    copied := [];
    for i := 0 to len
      invariant |copied| == i
      invariant forall j :: 0 <= j < i ==> strings[j] == Some(copied[j])
    {
      copied := copied + [strings[i].value];
    }
  }

  /** keys_to_msg: the strings of the array up to its first NULL, repeats and empty strings included. */
  method KeysToMsg(keys: array?<Option<CString>>) returns (m: Option<KeysMessage>)
    requires keys != null ==> None in keys[..]
    ensures m.None? <==> keys == null
    ensures m.Some? ==> StringsOf(keys[..], m.value.keys)
  {
    if keys == null {
      return None;
    }
    var count := KeysCount(keys);
    var copied := [];
    if count != 0 {
      copied := StrArrCopy(keys, count);
    }
    m := Some(KeysMessage(copied));
  }

  /** msg_to_keys: the strings of the message, then one NULL. */
  method MsgToKeys(m: Option<KeysMessage>) returns (keys: array?<Option<CString>>)
    ensures keys == null <==> m.None?
    ensures keys != null ==> fresh(keys) && NullTerminated(keys[..], m.value.keys)
  {
    if m.None? {
      return null;
    }
    var n := |m.value.keys|;
    var copied := new Option<CString>[n + 1](_ => None);
    for i := 0 to n
      invariant forall j :: 0 <= j < i ==> copied[j] == Some(m.value.keys[j])
    {
      copied[i] := Some(m.value.keys[i]);
    }
    copied[n] := None;
    keys := copied;
  }

  /** A NULL-terminated array puts exactly its strings into the message. */
  lemma KeysSent(a: seq<Option<CString>>, ks: seq<CString>, sent: seq<CString>)
    requires NullTerminated(a, ks) && StringsOf(a, sent)
    ensures sent == ks
  {
    assert |sent| == |ks|;
    forall i | 0 <= i < |ks|
      ensures sent[i] == ks[i]
    {
      assert a[i] == Some(sent[i]) == Some(ks[i]);
    }
  }

  /** An array that ends with its first NULL comes back unchanged from its trip through a message. */
  lemma KeysRoundTrip(a: seq<Option<CString>>, ks: seq<CString>, sent: seq<CString>, b: seq<Option<CString>>)
    requires NullTerminated(a, ks)
    requires StringsOf(a, sent) && NullTerminated(b, sent)
    ensures b == a
  {
    KeysSent(a, ks, sent);
  }

  /** Entries survive the conversion to a message and back, with NULL and empty kept apart. */
  lemma EntryRoundTrip(e: EntryRecord, m: EntryMessage)
    ensures MsgToEntry(EntryToMsg(e)) == e
    ensures EntryToMsg(MsgToEntry(m)) == m
  {
  }
}
