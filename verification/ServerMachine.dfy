/**
 * One server as a state machine: a main thread that handles one client request at a time under the tree lock, and a
 * worker thread that executes the queued writes. Every event is one atomic step of one of the two threads.
 */
module ServerMachine {
  import opened Wrappers
  import opened CStrings
  import opened Messages
  import opened SearchTree
  import opened ServerRoles
  import opened Tasks

  datatype Lock = Free | ByWorker | ByHandler

  /** Where the worker thread is in its loop. */
  datatype Worker =
    | Waiting
    | Peeked(task: Task)
    | Holding(task: Task)
    | Applied(task: Task)
    | Judged(task: Task, result: TaskResult)
    | Recorded

  /** Where the main thread is in handling a request. */
  datatype Handler =
    | Idle
    | Received(request: Message)
    | Inside(request: Message)
    | Numbered(request: Message, id: int)
    | Answered(request: Message, response: Message)

  /** accepted: all queued writes, in id order. forwarded: the writes sent on to the backup, in order. */
  datatype Server = Server(
    role: ServerRole, tree: Tree, board: Board, worker: Worker, handler: Handler, lock: Lock, exited: bool,
    accepted: seq<Message>, forwarded: seq<Message>)

  function Started(role: ServerRole): Server {
    Server(role, Leaf, EMPTY, Waiting, Idle, Free, false, [], [])
  }

  // ---------- What requests do ----------

  /** The tree after a write, or None when the tree operation fails and the server exits. */
  function Execute(t: Tree, m: Message): Option<Tree> {
    if m.opCode == OP_DEL && m.content.Key? then
      if t == Leaf then None else Some(Remove(t, m.content.key))
    else if m.opCode == OP_PUT && m.content.Entry? && m.content.entry.Some? then
      var entry := m.content.entry.value;
      if entry.key.None? || entry.value.None? then None
      else Some(Insert(t, entry.key.value.str, entry.value.value.data))
    else None
  }

  function GetOr(v: Option<Data>, default: Data): Data {
    if v.Some? then v.value else default
  }

  /** The response to every request that is not queued. */
  function Respond(t: Tree, results: seq<Outcome>, m: Message): Message {
    if m.opCode == OP_SIZE then Message(m.opCode + 1, IntResult(Size(t)))
    else if m.opCode == OP_HEIGHT then Message(m.opCode + 1, IntResult(Height(t)))
    else if m.opCode == OP_GET && m.content.Key? then
      Message(m.opCode + 1, Value(Some(DataMessage(GetOr(Lookup(t, m.content.key), [])))))
    else if m.opCode == OP_GETKEYS then Message(m.opCode + 1, Keys(Some(KeysMessage(InOrder(t)))))
    else if m.opCode == OP_VERIFY && m.content.OpId? then
      Message(m.opCode + 1, IntResult(Code(ResultOf(results, m.content.opId))))
    else Message(OP_ERROR, IntResult(-1))
  }

  // ---------- Steps ----------

  datatype Event =
    | Receive(request: Message)
    | HandlerLock
    | Answer
    | Assign
    | Append
    | Reply
    | Peek
    | WorkerLock
    | Apply
    | Refuse
    | Replicate(sent: bool)
    | Record
    | WorkerUnlock

  predicate Enabled(s: Server, e: Event) {
    !s.exited &&
    match e
    case Receive(m) => s.handler.Idle? && ContentPresent(m.content)
    case HandlerLock => s.handler.Received? && s.lock.Free?
    case Answer => s.handler.Inside? && !IsWrite(s.handler.request)
    case Assign => s.handler.Inside? && IsWrite(s.handler.request)
    case Append => s.handler.Numbered?
    case Reply => s.handler.Answered?
    case Peek => s.worker.Waiting? && s.board.queue != []
    case WorkerLock => s.worker.Peeked? && s.lock.Free?
    case Apply => s.worker.Holding? && IsWrite(s.worker.task.request)
    case Refuse => s.worker.Holding? && !IsWrite(s.worker.task.request)
    case Replicate(_) => s.worker.Applied?
    case Record => s.worker.Judged?
    case WorkerUnlock => s.worker.Recorded?
  }

  function Step(s: Server, e: Event): Server
    requires Enabled(s, e)
  {
    match e
    case Receive(m) => s.(handler := Received(m))
    case HandlerLock => s.(handler := Inside(s.handler.request), lock := ByHandler)
    case Answer =>
      var m := s.handler.request;
      s.(handler := Answered(m, Respond(s.tree, s.board.results, m)))
    case Assign =>
      s.(handler := Numbered(s.handler.request, s.board.lastId + 1), board := AssignId(s.board))
    case Append =>
      var m, id := s.handler.request, s.handler.id;
      s.(handler := Answered(m, Message(m.opCode + 1, OpId(id))),
         board := Enqueue(s.board, Task(id, m)),
         accepted := s.accepted + [m])
    case Reply => s.(handler := Idle, lock := Free)
    case Peek => s.(worker := Peeked(s.board.queue[0]))
    case WorkerLock => s.(worker := Holding(s.worker.task), lock := ByWorker)
    case Apply =>
      (match Execute(s.tree, s.worker.task.request)
       case Some(t) => s.(worker := Applied(s.worker.task), tree := t)
       case None => s.(exited := true))
    case Refuse => s.(worker := Judged(s.worker.task, FAILED))
    case Replicate(sent) =>
      if s.role == BACKUP then s.(worker := Judged(s.worker.task, SUCCESSFUL))
      else if sent then
        s.(worker := Judged(s.worker.task, SUCCESSFUL), forwarded := s.forwarded + [s.worker.task.request])
      else s.(exited := true)
    case Record =>
      s.(worker := Recorded, board := SetResult(s.board, s.worker.task.id, s.worker.result))
    case WorkerUnlock => s.(worker := Waiting, lock := Free)
  }

  // ---------- Replaying a history of writes ----------

  /** The tree after all writes, first write first, starting from the empty tree; None if one of them fails. */
  function Replay(ws: seq<Message>): Option<Tree> {
    if ws == [] then Some(Leaf)
    else
      match Replay(ws[..|ws| - 1])
      case None => None
      case Some(t) => Execute(t, ws[|ws| - 1])
  }

  lemma ReplayAppend(ws: seq<Message>, n: nat)
    requires n < |ws| && Replay(ws[..n]).Some?
    ensures Replay(ws[..n + 1]) == Execute(Replay(ws[..n]).value, ws[n])
  {
    assert ws[..n + 1][..n] == ws[..n];
  }

  /** A history that does not fail has no prefix that fails. */
  lemma {:induction false} ReplayPrefix(ws: seq<Message>, n: nat)
    requires n <= |ws| && Replay(ws).Some?
    ensures Replay(ws[..n]).Some?
    decreases |ws|
  {
    if n == |ws| {
      assert ws[..n] == ws;
    } else {
      assert ws[..|ws| - 1][..n] == ws[..n];
      ReplayPrefix(ws[..|ws| - 1], n);
    }
  }

  /** The finite map after all writes: deletes remove a key, puts update one. */
  function MapReplay(ws: seq<Message>): map<CString, Data> {
    if ws == [] then map[]
    else
      var m, w := MapReplay(ws[..|ws| - 1]), ws[|ws| - 1];
      match w.content
      case Key(k) => if k.Some? then m - {k.value} else m
      case Entry(e) =>
        if e.Some? && e.value.key.Some? && e.value.value.Some?
        then m[e.value.key.value.str := e.value.value.value.data] else m
      case _ => m
  }

  /** Any sequence of writes that does not fail leaves a search tree that stands for the replayed finite map. */
  lemma {:induction false} ReplayIsMap(ws: seq<Message>)
    requires Replay(ws).Some?
    ensures Ordered(Replay(ws).value)
    ensures MapOf(Replay(ws).value) == MapReplay(ws)
  {
    if ws != [] {
      ReplayIsMap(ws[..|ws| - 1]);
      var t, w := Replay(ws[..|ws| - 1]).value, ws[|ws| - 1];
      if w.content.Key? {
        RemoveShrinksMap(t, w.content.key);
      } else {
        var e := w.content.entry.value;
        InsertUpdatesMap(t, e.key.value.str, e.value.value.data);
      }
    }
  }

  // ---------- The invariant ----------

  /** How many accepted writes the tree reflects. */
  function Done(s: Server): nat {
    |s.board.results| + if s.worker.Applied? || s.worker.Judged? then 1 else 0
  }

  /** How many accepted writes a primary has sent on. */
  function Sent(s: Server): nat {
    |s.board.results| + if s.worker.Judged? then 1 else 0
  }

  ghost predicate HistoryKept(s: Server) {
    var n := |s.board.results|;
    && |s.accepted| == n + |s.board.queue|
    && (forall i :: 0 <= i < |s.accepted| ==> IsWrite(s.accepted[i]) && ContentPresent(s.accepted[i].content))
    && (forall i :: 0 <= i < |s.board.queue| ==> s.board.queue[i].request == s.accepted[n + i])
    && (forall i :: 0 <= i < n ==> s.board.results[i].result == SUCCESSFUL)
  }

  ghost predicate IdsKept(s: Server) {
    (!s.handler.Idle? ==> ContentPresent(s.handler.request.content)) &&
    if s.handler.Numbered? then
      OneOnItsWay(s.board) && s.handler.id == s.board.lastId && IsWrite(s.handler.request)
    else Complete(s.board)
  }

  ghost predicate LockKept(s: Server) {
    && (s.lock.ByWorker? <==> s.worker.Holding? || s.worker.Applied? || s.worker.Judged? || s.worker.Recorded?)
    && (s.lock.ByHandler? <==> s.handler.Inside? || s.handler.Numbered? || s.handler.Answered?)
  }

  /** The task in the worker's hands is still the head of the queue. */
  ghost predicate TaskKept(s: Server) {
    && (s.worker.Peeked? || s.worker.Holding? || s.worker.Applied? || s.worker.Judged? ==>
          s.board.queue != [] && s.board.queue[0] == s.worker.task)
    && (s.worker.Judged? ==> s.worker.result == SUCCESSFUL)
  }

  ghost predicate TreeKept(s: Server) {
    && Done(s) <= |s.accepted|
    && Replay(s.accepted[..Done(s)]) == Some(s.tree)
    && s.forwarded == if s.role == BACKUP then [] else s.accepted[..Sent(s)]
  }

  ghost predicate Inv(s: Server) {
    HistoryKept(s) && IdsKept(s) && LockKept(s) && TaskKept(s) && TreeKept(s)
  }

  lemma StartedInv(role: ServerRole)
    ensures Inv(Started(role))
  {
  }

  lemma QueueingKeepsHistory(s: Server, e: Event)
    requires Inv(s) && Enabled(s, e) && (e.Assign? || e.Append?)
    ensures HistoryKept(Step(s, e)) && IdsKept(Step(s, e))
  {
  }

  lemma RecordKeepsHistory(s: Server)
    requires Inv(s) && Enabled(s, Record)
    ensures HistoryKept(Step(s, Record)) && IdsKept(Step(s, Record))
  {
    SetResultKeepsNumbering(s.board, s.worker.task.id, s.worker.result);
  }

  lemma StepKeepsHistory(s: Server, e: Event)
    requires Inv(s) && Enabled(s, e)
    ensures HistoryKept(Step(s, e)) && IdsKept(Step(s, e))
  {
    match e
    case Assign => QueueingKeepsHistory(s, e);
    case Append => QueueingKeepsHistory(s, e);
    case Record => RecordKeepsHistory(s);
    case _ =>
  }

  lemma AppendKeepsTree(s: Server)
    requires Inv(s) && Enabled(s, Append)
    ensures TreeKept(Step(s, Append))
  {
    var s' := Step(s, Append);
    assert s'.accepted[..Done(s)] == s.accepted[..Done(s)];
    assert s'.accepted[..Sent(s)] == s.accepted[..Sent(s)];
  }

  lemma ApplyKeepsTree(s: Server)
    requires Inv(s) && Enabled(s, Apply)
    ensures TreeKept(Step(s, Apply))
  {
    ReplayAppend(s.accepted, Done(s));
  }

  lemma ReplicateKeepsTree(s: Server, sent: bool)
    requires Inv(s) && Enabled(s, Replicate(sent))
    ensures TreeKept(Step(s, Replicate(sent)))
  {
    assert s.accepted[..Sent(s) + 1] == s.accepted[..Sent(s)] + [s.accepted[Sent(s)]];
  }

  lemma StepKeepsTree(s: Server, e: Event)
    requires Inv(s) && Enabled(s, e)
    ensures TreeKept(Step(s, e))
  {
    match e
    case Append => AppendKeepsTree(s);
    case Apply => ApplyKeepsTree(s);
    case Replicate(sent) => ReplicateKeepsTree(s, sent);
    case _ =>
  }

  lemma StepKeepsDiscipline(s: Server, e: Event)
    requires Inv(s) && Enabled(s, e)
    ensures LockKept(Step(s, e)) && TaskKept(Step(s, e))
  {
  }

  lemma StepKeepsInv(s: Server, e: Event)
    requires Inv(s) && Enabled(s, e)
    ensures Inv(Step(s, e))
  {
    StepKeepsHistory(s, e);
    StepKeepsTree(s, e);
    StepKeepsDiscipline(s, e);
  }

  // ---------- Runs of one server ----------

  /** The state after a sequence of events from the start, or None if some event is not possible when its turn comes. */
  function Run(role: ServerRole, es: seq<Event>): Option<Server> {
    if es == [] then Some(Started(role))
    else
      var last := es[|es| - 1];
      match Run(role, es[..|es| - 1])
      case None => None
      case Some(s) => if Enabled(s, last) then Some(Step(s, last)) else None
  }

  lemma {:induction false} RunInv(role: ServerRole, es: seq<Event>)
    requires Run(role, es).Some?
    ensures Inv(Run(role, es).value) && Run(role, es).value.role == role
  {
    if es == [] {
      StartedInv(role);
    } else {
      RunInv(role, es[..|es| - 1]);
      StepKeepsInv(Run(role, es[..|es| - 1]).value, es[|es| - 1]);
    }
  }

  /**
   * The tree is the replay of exactly the writes that have a result; those followed by the queued ones are all writes
   * accepted so far, the i-th one under task id i.
   */
  ghost predicate TreeTellsHistory(s: Server) {
    var n := |s.board.results|;
    && n + |s.board.queue| == |s.accepted| == s.board.lastId + 1
    && Replay(s.accepted[..n]) == Some(s.tree)
    && Ordered(s.tree) && MapOf(s.tree) == MapReplay(s.accepted[..n])
    && (forall id :: ResultOf(s.board.results, id) == if 0 <= id < n then SUCCESSFUL else NOT_EXECUTED)
    && (forall i :: 0 <= i < |s.board.queue| ==> s.board.queue[i] == Task(n + i, s.accepted[n + i]))
  }

  /** Whenever the tree lock is free, in every interleaving of the two threads, the tree tells the history. */
  lemma FreeLockTree(role: ServerRole, es: seq<Event>)
    requires Run(role, es).Some? && Run(role, es).value.lock.Free?
    ensures TreeTellsHistory(Run(role, es).value)
  {
    RunInv(role, es);
    FreeLockHistory(Run(role, es).value);
  }

  lemma FreeLockHistory(s: Server)
    requires Inv(s) && s.lock.Free?
    ensures TreeTellsHistory(s)
  {
    assert Done(s) == |s.board.results|;
    ReplayIsMap(s.accepted[..|s.board.results|]);
    QueuedInOrder(s);
    forall id
      ensures ResultOf(s.board.results, id) == if 0 <= id < |s.board.results| then SUCCESSFUL else NOT_EXECUTED
    {
      ResultMeansExecuted(s, id);
    }
  }

  lemma QueuedInOrder(s: Server)
    requires Inv(s)
    ensures var n := |s.board.results|;
            forall i :: 0 <= i < |s.board.queue| ==> s.board.queue[i] == Task(n + i, s.accepted[n + i])
  {
  }

  /** verify answers 1 for an id exactly when the write with that id has been executed, and 0 otherwise. */
  lemma ResultMeansExecuted(s: Server, id: int)
    requires Inv(s)
    ensures ResultOf(s.board.results, id) == if 0 <= id < |s.board.results| then SUCCESSFUL else NOT_EXECUTED
  {
    ResultOfAt(s.board.results, id);
  }

  /** The operation of a write fails on tree t: a delete on an empty tree, or a put without entry, key or value. */
  predicate Fails(t: Tree, m: Message) {
    if m.opCode == OP_DEL && m.content.Key? then t == Leaf
    else
      m.content.Entry? &&
      (m.content.entry.None? || m.content.entry.value.key.None? || m.content.entry.value.value.None?)
  }

  /** A server exits exactly when it applies a failing write, or when it is no backup and cannot replicate. */
  lemma ExitCauses(s: Server, e: Event)
    requires Inv(s) && Enabled(s, e)
    ensures Step(s, e).exited <==>
            || (e.Apply? && Fails(s.tree, s.worker.task.request))
            || (e == Replicate(false) && s.role != BACKUP)
  {
  }

  /** The branch for tasks that are neither puts nor deletes is never taken, so no task ever gets FAILED. */
  lemma NothingIsRefused(role: ServerRole, es: seq<Event>)
    requires Run(role, es).Some?
    ensures !Enabled(Run(role, es).value, Refuse)
    ensures forall o :: o in Run(role, es).value.board.results ==> o.result == SUCCESSFUL
  {
    RunInv(role, es);
  }

  /** The later server has lost no write, and its list of results ends with the earlier one. */
  predicate GrownFrom(s: Server, later: Server) {
    var r, r' := s.board.results, later.board.results;
    s.accepted <= later.accepted && |r| <= |r'| && r'[|r'| - |r|..] == r
  }

  lemma StepGrows(s: Server, e: Event)
    requires Enabled(s, e)
    ensures GrownFrom(s, Step(s, e))
  {
  }

  lemma GrownFromTransitive(a: Server, b: Server, c: Server)
    requires GrownFrom(a, b) && GrownFrom(b, c)
    ensures GrownFrom(a, c)
  {
    var r, r', r'' := a.board.results, b.board.results, c.board.results;
    assert r''[|r''| - |r|..] == r''[|r''| - |r'|..][|r'| - |r|..];
  }

  /** Along a run the accepted history and the results only grow; recorded outcomes stay at the end of the list. */
  lemma {:induction false} RunGrows(role: ServerRole, es: seq<Event>, a: nat)
    requires a <= |es| && Run(role, es).Some?
    ensures Run(role, es[..a]).Some?
    ensures GrownFrom(Run(role, es[..a]).value, Run(role, es).value)
    decreases |es|
  {
    if a == |es| {
      assert es[..a] == es;
      assert GrownFrom(Run(role, es).value, Run(role, es).value);
    } else {
      hide GrownFrom, Step;
      assert es[..|es| - 1][..a] == es[..a];
      RunGrows(role, es[..|es| - 1], a);
      StepGrows(Run(role, es[..|es| - 1]).value, es[|es| - 1]);
      GrownFromTransitive(Run(role, es[..a]).value, Run(role, es[..|es| - 1]).value, Run(role, es).value);
    }
  }

  /** A result that verify has reported once is reported for that id ever after. */
  lemma VerifyIsStable(role: ServerRole, es: seq<Event>, a: nat, id: int)
    requires a <= |es| && Run(role, es).Some?
    ensures Run(role, es[..a]).Some?
    ensures var early, late := ResultOf(Run(role, es[..a]).value.board.results, id),
                               ResultOf(Run(role, es).value.board.results, id);
            early != NOT_EXECUTED ==> late == early
  {
    RunGrows(role, es, a);
    RunInv(role, es[..a]);
    RunInv(role, es);
    ResultOfAt(Run(role, es[..a]).value.board.results, id);
    ResultOfAt(Run(role, es).value.board.results, id);
  }
}
