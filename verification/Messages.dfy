/** The messages of sdmessage.proto, with NULL pointers made explicit. */
module Messages {
  import opened Wrappers
  import opened CStrings

  datatype DataMessage = DataMessage(data: seq<byte>)

  datatype NullableString = NullableString(str: CString)

  datatype EntryMessage = EntryMessage(key: Option<NullableString>, value: Option<DataMessage>)

  datatype KeysMessage = KeysMessage(keys: seq<CString>)

  /** The content case together with the member of the union that it selects; pointers may be NULL. */
  datatype Content =
    | NotSet
    | Key(key: Option<CString>)
    | Value(value: Option<DataMessage>)
    | Entry(entry: Option<EntryMessage>)
    | Keys(keys: Option<KeysMessage>)
    | IntResult(intResult: int)
    | OpId(opId: int)

  datatype Message = Message(opCode: int, content: Content)

  const OP_BAD := 0
  const OP_SIZE := 10
  const OP_DEL := 20
  const OP_GET := 30
  const OP_PUT := 40
  const OP_GETKEYS := 50
  const OP_HEIGHT := 60
  const OP_VERIFY := 70
  const OP_ERROR := 99

  /** The selected pointer is not NULL. */
  predicate ContentPresent(c: Content) {
    match c
    case Key(k) => k.Some?
    case Value(v) => v.Some?
    case Entry(e) => e.Some?
    case Keys(ks) => ks.Some?
    case _ => true
  }

  /** The combinations that invoke queues for later execution. */
  predicate IsWrite(m: Message) {
    (m.opCode == OP_DEL && m.content.Key?) || (m.opCode == OP_PUT && m.content.Entry?)
  }
}
