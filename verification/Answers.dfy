/**
 * What clients are told, in terms of the finite map that the executed writes leave, with the operation codes written
 * out: 10 size, 20 delete, 30 get, 40 put, 50 keys, 60 height, 70 verify, 99 error, and one more in a response.
 */
module Answers {
  import opened Wrappers
  import opened CStrings
  import opened Messages
  import opened SearchTree
  import opened Tasks
  import opened ServerMachine
  import opened ServerRoles
  import R = Replication

  type Contents = map<CString, Data>

  // ---------- The map after a history ----------

  /** A put updates one key, and a delete removes one. */
  lemma WritesUpdateMap(ws: seq<Message>, key: CString, value: Data)
    ensures MapReplay([]) == map[]
    ensures var put := Message(40, Entry(Some(EntryMessage(Some(NullableString(key)), Some(DataMessage(value))))));
            MapReplay(ws + [put]) == MapReplay(ws)[key := value]
    ensures MapReplay(ws + [Message(20, Key(Some(key)))]) == MapReplay(ws) - {key}
  {
    var put := Message(40, Entry(Some(EntryMessage(Some(NullableString(key)), Some(DataMessage(value))))));
    assert (ws + [put])[..|ws|] == ws && (ws + [Message(20, Key(Some(key)))])[..|ws|] == ws;
  }

  /** What a write does to the tree; None where the server exits. */
  lemma WritesExecute(t: Tree, key: CString, value: Data, nullKey: Option<CString>)
    ensures Execute(t, Message(20, Key(nullKey))) == if t == Leaf then None else Some(Remove(t, nullKey))
    ensures Execute(t, Message(40, Entry(Some(EntryMessage(Some(NullableString(key)), Some(DataMessage(value))))))) ==
            Some(Insert(t, key, value))
    ensures Execute(t, Message(40, Entry(None))) == None
    ensures Execute(t, Message(40, Entry(Some(EntryMessage(None, Some(DataMessage(value))))))) == None
    ensures Execute(t, Message(40, Entry(Some(EntryMessage(Some(NullableString(key)), None))))) == None
  {
  }

  /** Only two kinds of requests are queued as writes. */
  lemma WritesAre(m: Message)
    ensures IsWrite(m) <==> (m.opCode == 20 && m.content.Key?) || (m.opCode == 40 && m.content.Entry?)
  {
  }

  // ---------- Queries ----------

  /**
   * The right answer to a request that is not a write, for contents m, a tree of height h, and j executed writes, the
   * ones with ids below j.
   */
  ghost predicate RightAnswer(request: Message, answer: Message, m: Contents, h: int, j: nat) {
    match request.opCode
    case 10 => answer == Message(11, IntResult(|m|))
    case 60 => answer == Message(61, IntResult(h))
    case 50 =>
      && answer.opCode == 51 && answer.content.Keys? && answer.content.keys.Some?
      && ListsKeys(answer.content.keys.value.keys, m)
    case _ =>
      if request.opCode == 30 && request.content.Key? then
        answer == Message(31, Value(Some(DataMessage(ValueIn(m, request.content.key)))))
      else if request.opCode == 70 && request.content.OpId? then
        answer == Message(71, IntResult(if 0 <= request.content.opId < j then 1 else 0))
      else answer == Message(99, IntResult(-1))
  }

  /** All keys of the map, each one once, in strictly ascending order. */
  ghost predicate ListsKeys(ks: seq<CString>, m: Contents) {
    Ascending(ks) && |ks| == |m| && forall k :: k in ks <==> k in m
  }

  /** The value under the key, or no bytes. */
  function ValueIn(m: Contents, key: Option<CString>): Data {
    if key.Some? && key.value in m then m[key.value] else []
  }

  lemma TreeTells(ws: seq<Message>, key: Option<CString>)
    requires Replay(ws).Some?
    ensures var t, m := Replay(ws).value, MapReplay(ws);
            Size(t) == |m| && ListsKeys(InOrder(t), m) && GetOr(Lookup(t, key), []) == ValueIn(m, key)
  {
    var t := Replay(ws).value;
    ReplayIsMap(ws);
    hide InOrder, Lookup, MapReplay, Ordered, Replay, Size;
    SizeCountsKeys(t);
    InOrderAscends(t);
    LookupInMap(t, key);
  }

  lemma ResponseIsRight(ws: seq<Message>, results: seq<Outcome>, m: Message)
    requires Replay(ws).Some? && !IsWrite(m)
    requires forall id :: ResultOf(results, id) == if 0 <= id < |results| then SUCCESSFUL else NOT_EXECUTED
    ensures RightAnswer(m, Respond(Replay(ws).value, results, m), MapReplay(ws), Height(Replay(ws).value), |results|)
  {
    hide GetOr, Height, InOrder, ListsKeys, Lookup, MapReplay, Replay, ResultOf, Size, ValueIn;
    TreeTells(ws, if m.content.Key? then m.content.key else None);
  }

  /** In every run of a server, the answer to a query is right for the writes that have been executed. */
  lemma ServerAnswers(role: ServerRole, es: seq<Event>)
    requires es != [] && Run(role, es).Some? && es[|es| - 1] == Answer
    ensures var s := Run(role, es).value;
            var j := |s.board.results|;
            && s.handler.Answered? && j <= |s.accepted| && Replay(s.accepted[..j]).Some?
            && RightAnswer(s.handler.request, s.handler.response,
                           MapReplay(s.accepted[..j]), Height(Replay(s.accepted[..j]).value), j)
  {
    hide Height, MapReplay, Replay, Respond, RightAnswer;
    var s := Run(role, es[..|es| - 1]).value;
    RunInv(role, es[..|es| - 1]);
    InsideIsReplay(s);
    forall id
      ensures ResultOf(s.board.results, id) == if 0 <= id < |s.board.results| then SUCCESSFUL else NOT_EXECUTED
    {
      ResultMeansExecuted(s, id);
    }
    ResponseIsRight(s.accepted[..|s.board.results|], s.board.results, s.handler.request);
  }

  lemma InsideIsReplay(s: Server)
    requires Inv(s) && s.handler.Inside?
    ensures |s.board.results| <= |s.accepted| && Replay(s.accepted[..|s.board.results|]) == Some(s.tree)
  {
  }

  /** The response to a write has its op code plus one, 21 or 41, and the id under which it was accepted. */
  lemma WriteAnswers(role: ServerRole, es: seq<Event>)
    requires es != [] && Run(role, es).Some? && es[|es| - 1] == Append
    ensures var s := Run(role, es).value;
            && s.handler.Answered? && s.accepted != [] && s.accepted[|s.accepted| - 1] == s.handler.request
            && (s.handler.request.opCode == 20 || s.handler.request.opCode == 40)
            && s.handler.response ==
               Message(if s.handler.request.opCode == 20 then 21 else 41, OpId(|s.accepted| - 1))
  {
    RunInv(role, es[..|es| - 1]);
  }

  // ---------- The backup ----------

  /** Every answer of the backup is right for the first j writes of the primary: those the backup has executed. */
  lemma BackupAnswersRightly(es: seq<R.SystemEvent>)
    requires es != [] && R.After(es).Some? && es[|es| - 1] == R.OnBackup(Answer)
    ensures var s, j := R.After(es).value, R.Executed(es, |es| - 1);
            && s.backup.handler.Answered? && j <= |s.primary.accepted| && Replay(s.primary.accepted[..j]).Some?
            && RightAnswer(s.backup.handler.request, s.backup.handler.response,
                           MapReplay(s.primary.accepted[..j]), Height(Replay(s.primary.accepted[..j]).value), j)
  {
    hide Height, Inv, MapReplay, R.InStep, R.Next, Replay, Respond, RightAnswer;
    var es' := es[..|es| - 1];
    R.AlwaysInStep(es');
    var s := R.After(es').value;
    R.AnswerTree(s);
    R.AnswerGiven(s);
    BothInvariants(s);
    forall id
      ensures ResultOf(s.backup.board.results, id) ==
              if 0 <= id < |s.backup.board.results| then SUCCESSFUL else NOT_EXECUTED
    {
      ResultMeansExecuted(s.backup, id);
    }
    ResponseIsRight(s.primary.accepted[..|s.backup.board.results|], s.backup.board.results, s.backup.handler.request);
  }

  lemma BothInvariants(s: R.System)
    requires R.InStep(s)
    ensures Inv(s.primary) && Inv(s.backup)
  {
  }

  /** The write changes what is stored under the key. */
  predicate Touches(w: Message, key: CString) {
    match w.content
    case Key(k) => k == Some(key)
    case Entry(e) => e.Some? && e.value.key == Some(NullableString(key))
    case _ => false
  }

  lemma {:induction false} LastPutStays(ws: seq<Message>, id: nat, key: CString, value: Data)
    requires id < |ws|
    requires ws[id] == Message(40, Entry(Some(EntryMessage(Some(NullableString(key)), Some(DataMessage(value))))))
    requires forall i :: id < i < |ws| ==> !Touches(ws[i], key)
    ensures key in MapReplay(ws) && MapReplay(ws)[key] == value
    decreases |ws|
  {
    var n := |ws| - 1;
    if id < n {
      LastPutStays(ws[..n], id, key, value);
      assert !Touches(ws[n], key);
    }
  }

  /**
   * A client's own put: the primary gave it an id (event a), and verify of that id at the backup has answered 1 (event
   * b). As long as no later write to that key has been executed there, the backup answers a get of the key (the last
   * event) with the value that was put.
   */
  lemma OwnPutIsRead(es: seq<R.SystemEvent>, a: nat, b: nat, key: CString, value: Data)
    requires a < |es| && b < |es| - 1
    requires R.After(es).Some? && R.After(es[..a + 1]).Some? && R.After(es[..b + 1]).Some?
    requires es[a] == R.OnPrimary(Append) && es[b] == R.OnBackup(Answer) && es[|es| - 1] == R.OnBackup(Answer)
    requires var h := R.After(es[..b + 1]).value.backup.handler;
             && h.Answered? && h.request.opCode == 70 && h.request.content.OpId? && h.response.content == IntResult(1)
             && R.After(es[..a + 1]).value.primary.handler.Answered?
             && R.After(es[..a + 1]).value.primary.handler.response.content == OpId(h.request.content.opId)
    requires R.After(es[..a + 1]).value.primary.handler.request ==
             Message(40, Entry(Some(EntryMessage(Some(NullableString(key)), Some(DataMessage(value))))))
    requires var s, j := R.After(es).value, R.Executed(es, |es| - 1);
             var id := R.After(es[..b + 1]).value.backup.handler.request.content.opId;
             forall i :: 0 <= id < i < j && i < |s.primary.accepted| ==> !Touches(s.primary.accepted[i], key)
    requires R.After(es).value.backup.handler.Answered?
    requires R.After(es).value.backup.handler.request == Message(30, Key(Some(key)))
    ensures R.After(es).value.backup.handler.response == Message(31, Value(Some(DataMessage(value))))
  {
    hide Height, MapReplay, R.After, R.Executed, Replay, Touches;
    R.OwnWriteIsRead(es, a, b);
    BackupAnswersRightly(es);
    var s, j := R.After(es).value, R.Executed(es, |es| - 1);
    var id := R.After(es[..b + 1]).value.backup.handler.request.content.opId;
    LastPutStays(s.primary.accepted[..j], id, key, value);
  }
}
