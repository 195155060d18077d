/**
 * tree_skel.c on the heap: the tree, the task lists, the tree lock and the program counters of both threads. Each
 * method is one atomic step of one thread and is proved to be the corresponding step of the state machine.
 */
module TreeServers {
  import opened Wrappers
  import opened Messages
  import opened SearchTree
  import opened Tasks
  import opened TaskLists
  import opened HeapTree
  import opened ServerMachine
  import opened ServerRoles
  import Addresses
  import Conversions

  datatype WorkerPc = WWaiting | WPeeked | WHolding | WApplied | WJudged(result: TaskResult) | WRecorded

  datatype HandlerPc = HIdle | HReceived | HInside | HNumbered | HAnswered(response: Message)

  /** The tree operation of process_tree_del or process_tree_put. */
  method ExecuteOn(tree: TreeStore, m: Message) returns (r: int)
    requires tree.Valid() && IsWrite(m)
    modifies tree.Repr
    ensures tree.Valid() && fresh(tree.Repr - old(tree.Repr))
    ensures r < 0 <==> Execute(old(tree.Tree()), m).None?
    ensures tree.Tree() == if r < 0 then old(tree.Tree()) else Execute(old(tree.Tree()), m).value
  {
    r := -1;
    if m.opCode == OP_DEL && m.content.Key? {
      r := tree.Del(m.content.key);
    } else if m.content.entry.Some? {
      var entry := Conversions.MsgToEntry(m.content.entry.value);
      var value := Conversions.MsgToData(m.content.entry.value.value);
      r := tree.Put(entry.key, value);
    }
  }

  /**
   * What the calls of one replication come to: the address under which a backup is registered, if there is one, the
   * socket that connecting gives, and the result of sending.
   */
  datatype Calls = Calls(backup: Option<Addresses.Address>, sockfd: int, sendResult: int)

  /** Servers register under real addresses, and sending on descriptor -1 fails. */
  predicate CallsFit(c: Calls) {
    && (c.backup.Some? ==> Addresses.Registrable(c.backup.value))
    && -1 <= c.sockfd && (c.sockfd == -1 ==> c.sendResult < 0)
  }

  predicate CallsSucceed(c: Calls) {
    c.backup.Some? && c.sockfd >= 0 && c.sendResult >= 0
  }

  /** What parse_address_port makes of the string under which a server is registered. */
  method AddressOf(registered: Addresses.Address) returns (parsed: Option<Addresses.Address>)
    requires Addresses.Registrable(registered)
    ensures parsed == Some(registered)
  {
    Addresses.AddressRoundTrip(registered.ip, registered.port);
    parsed := Addresses.ParseAddressPort(Some(Addresses.FormatAddress(registered.ip, registered.port)));
  }

  class TreeServer {
    const role: ServerRole
    const tree: TreeStore
    const tasks: TaskBoard
    var lock: Lock
    var workerPc: WorkerPc
    var workerTask: TaskRecord?
    var handlerPc: HandlerPc
    var request: Message
    var newTask: TaskRecord?
    var exited: bool
    ghost var accepted: seq<Message>
    ghost var forwarded: seq<Message>
    ghost var Repr: set<object>

    ghost predicate Valid()
      reads this, Repr
    {
      && {this, tree, tasks} <= Repr
      && tree.Repr <= Repr && tasks.Repr <= Repr && this !in tree.Repr && this !in tasks.Repr
      && tree.Repr !! tasks.Repr
      && tree.Valid() && tasks.Valid()
      && (HasTask() ==> tasks.records != [] && workerTask == tasks.records[0])
      && (handlerPc.HNumbered? ==>
            newTask != null && newTask in Repr && newTask !in tasks.Repr && newTask !in tree.Repr
            && !newTask.freed && newTask.request == request)
    }

    predicate HasTask()
      reads this
    {
      workerPc.WPeeked? || workerPc.WHolding? || workerPc.WApplied? || workerPc.WJudged?
    }

    ghost function Worker(): Worker
      requires HasTask() ==> workerTask != null
      reads this
    {
      match workerPc
      case WWaiting => Waiting
      case WPeeked => Peeked(Task(workerTask.id, workerTask.request))
      case WHolding => Holding(Task(workerTask.id, workerTask.request))
      case WApplied => Applied(Task(workerTask.id, workerTask.request))
      case WJudged(r) => Judged(Task(workerTask.id, workerTask.request), r)
      case WRecorded => Recorded
    }

    ghost function Handler(): Handler
      requires handlerPc.HNumbered? ==> newTask != null
      reads this
    {
      match handlerPc
      case HIdle => Idle
      case HReceived => Received(request)
      case HInside => Inside(request)
      case HNumbered => Numbered(request, newTask.id)
      case HAnswered(r) => Answered(request, r)
    }

    /** The state of the state machine that this object is in. */
    ghost function State(): Server
      requires Valid()
      reads this, Repr
    {
      Server(role, tree.Tree(), tasks.Board(), Worker(), Handler(), lock, exited, accepted, forwarded)
    }

    constructor (role: ServerRole)
      ensures Valid() && fresh(Repr) && State() == Started(role) && this.role == role
    {
      this.role := role;
      var t := new TreeStore();
      var b := new TaskBoard();
      tree, tasks := t, b;
      lock, workerPc, handlerPc, exited := Free, WWaiting, HIdle, false;
      workerTask, newTask, request := null, null, Message(OP_BAD, NotSet);
      accepted, forwarded := [], [];
      Repr := {this, t, b} + t.Repr + b.Repr;
    }

    // ---------- The main thread ----------

    method ReceiveRequest(m: Message)
      requires Valid() && Enabled(State(), Receive(m))
      modifies this
      ensures Valid() && Repr == old(Repr)
      ensures State() == Step(old(State()), Receive(m))
    {
      request := m;
      handlerPc := HReceived;
    }

    method LockForHandler()
      requires Valid() && Enabled(State(), HandlerLock)
      modifies this
      ensures Valid() && Repr == old(Repr)
      ensures State() == Step(old(State()), HandlerLock)
    {
      lock := ByHandler;
      handlerPc := HInside;
    }

    /** The queries of invoke2, and its answer to requests that it cannot handle. */
    method Query() returns (response: Message)
      requires Valid() && Inv(State()) && Enabled(State(), Answer)
      ensures response == Respond(State().tree, State().board.results, request)
    {
      var op := request.opCode;
      if op == OP_SIZE {
        response := Message(op + 1, IntResult(tree.size));
      } else if op == OP_HEIGHT {
        response := Message(op + 1, IntResult(tree.height));
      } else if op == OP_GET && request.content.Key? {
        var value := tree.Get(request.content.key);
        LookupInMap(tree.Tree(), request.content.key);
        var m := Conversions.DataToMsg(value);
        response := Message(op + 1, Value(m));
      } else if op == OP_GETKEYS {
        var keys := tree.GetKeys();
        assert keys[..][keys.Length - 1] == None;
        var m := Conversions.KeysToMsg(keys);
        Conversions.KeysSent(keys[..], InOrder(tree.Tree()), m.value.keys);
        response := Message(op + 1, Keys(m));
      } else if op == OP_VERIFY && request.content.OpId? {
        var result := tasks.GetResult(request.content.opId);
        response := Message(op + 1, IntResult(Code(result)));
      } else {
        response := Message(OP_ERROR, IntResult(-1));
      }
    }

    method AnswerQuery()
      requires Valid() && Inv(State()) && Enabled(State(), Answer)
      modifies this
      ensures Valid() && Repr == old(Repr)
      ensures State() == Step(old(State()), Answer)
    {
      var response := Query();
      handlerPc := HAnswered(response);
    }

    method AssignTaskId()
      requires Valid() && Enabled(State(), Assign)
      modifies Repr
      ensures Valid() && fresh(Repr - old(Repr))
      ensures State() == Step(old(State()), Assign)
    {
      hide TreeStore.Valid;
      var task := tasks.CreateTask(request);
      newTask := task;
      handlerPc := HNumbered;
      Repr := Repr + {task};
    }

    method AppendTask()
      requires Valid() && Enabled(State(), Append)
      modifies Repr
      ensures Valid() && fresh(Repr - old(Repr))
      ensures State() == Step(old(State()), Append)
    {
      tasks.Append(newTask);
      handlerPc := HAnswered(Message(request.opCode + 1, OpId(newTask.id)));
      accepted := accepted + [request];
      Repr := Repr + tasks.Repr;
    }

    method SendReply() returns (response: Message)
      requires Valid() && Enabled(State(), Reply)
      modifies this
      ensures Valid() && Repr == old(Repr)
      ensures State() == Step(old(State()), Reply)
      ensures response == old(State()).handler.response
    {
      response := handlerPc.response;
      lock := Free;
      handlerPc := HIdle;
    }

    // ---------- The worker thread ----------

    method PeekTask()
      requires Valid() && Enabled(State(), Peek)
      modifies this
      ensures Valid() && Repr == old(Repr) && workerTask != null && !workerTask.freed
      ensures State() == Step(old(State()), Peek)
    {
      workerTask := tasks.GetNext();
      workerPc := WPeeked;
    }

    method LockForWorker()
      requires Valid() && Enabled(State(), WorkerLock)
      modifies this
      ensures Valid() && Repr == old(Repr)
      ensures State() == Step(old(State()), WorkerLock)
    {
      lock := ByWorker;
      workerPc := WHolding;
    }

    /** process_tree_del and process_tree_put up to the replication: a failing tree operation ends the process. */
    method ApplyTask()
      requires Valid() && Enabled(State(), Apply)
      modifies Repr
      ensures Valid() && fresh(Repr - old(Repr))
      ensures State() == Step(old(State()), Apply)
    {
      hide Execute, TaskBoard.LogLinked, TaskBoard.QueueLinked, TreeStore.Valid;
      var r := ExecuteOn(tree, workerTask.request);
      if r < 0 {
        exited := true;
      } else {
        workerPc := WApplied;
      }
      Repr := Repr + tree.Repr;
    }

    method RefuseTask()
      requires Valid() && Enabled(State(), Refuse)
      modifies this
      ensures Valid() && Repr == old(Repr)
      ensures State() == Step(old(State()), Refuse)
    {
      workerPc := WJudged(FAILED);
    }

    /**
     * replicate_to_backup_server. What its calls come to is an input. The checks for results below -1 never see the -1
     * of a failure: a registered address always parses, and a failed connect is noticed when sending on descriptor -1
     * fails.
     */
    method ReplicateTask(calls: Calls) returns (r: int, contacted: Option<Addresses.Address>)
      requires Valid() && workerPc.WApplied? && !exited && CallsFit(calls)
      modifies this
      ensures Valid() && Repr == old(Repr)
      ensures r == 0 <==> role == BACKUP || CallsSucceed(calls)
      ensures contacted == if role == BACKUP then None else calls.backup
      ensures State() == Step(old(State()), Replicate(r == 0))
    {
      hide TaskBoard.Valid, TreeStore.Valid;
      r, contacted := -1, None;
      if role == BACKUP {
        r := 0;
      } else if calls.backup.Some? {
        contacted := AddressOf(calls.backup.value);
        var parseResult := if contacted.None? then -1 else 0;
        if parseResult >= -1 && calls.sockfd >= -1 && calls.sendResult >= 0 {
          forwarded := forwarded + [workerTask.request];
          r := 0;
        }
      }
      if r < 0 {
        exited := true;
      } else {
        workerPc := WJudged(SUCCESSFUL);
      }
    }

    method RecordResult()
      requires Valid() && Enabled(State(), Record)
      modifies Repr
      ensures Valid() && fresh(Repr - old(Repr))
      ensures State() == Step(old(State()), Record)
      ensures old(workerPc.result) != NOT_EXECUTED ==> old(workerTask).freed
    {
      var r := tasks.SetResult(workerTask.id, workerPc.result);
      workerPc := WRecorded;
      Repr := Repr + tasks.Repr;
    }

    method UnlockByWorker()
      requires Valid() && Enabled(State(), WorkerUnlock)
      modifies this
      ensures Valid() && Repr == old(Repr)
      ensures State() == Step(old(State()), WorkerUnlock)
    {
      lock := Free;
      workerPc := WWaiting;
    }

    // ---------- Both threads ----------

    method PerformForHandler(e: Event)
      requires Valid() && Inv(State()) && Enabled(State(), e)
      requires e.Receive? || e.HandlerLock? || e.Answer? || e.Assign? || e.Append? || e.Reply?
      modifies Repr
      ensures Valid() && fresh(Repr - old(Repr))
      ensures State() == Step(old(State()), e)
    {
      match e
      case Receive(m) => ReceiveRequest(m);
      case HandlerLock => LockForHandler();
      case Answer => AnswerQuery();
      case Assign => AssignTaskId();
      case Append => AppendTask();
      case Reply => var response := SendReply();
    }

    method PerformForWorker(e: Event, calls: Calls)
      requires Valid() && Enabled(State(), e)
      requires e.Replicate? ==> CallsFit(calls) && (role == BACKUP || (e.sent <==> CallsSucceed(calls)))
      requires e.Peek? || e.WorkerLock? || e.Apply? || e.Refuse? || e.Replicate? || e.Record? || e.WorkerUnlock?
      modifies Repr
      ensures Valid() && fresh(Repr - old(Repr))
      ensures State() == Step(old(State()), e)
    {
      match e
      case Peek => PeekTask();
      case WorkerLock => LockForWorker();
      case Apply => ApplyTask();
      case Refuse => RefuseTask();
      case Replicate(_) => var r, contacted := ReplicateTask(calls);
      case Record => RecordResult();
      case WorkerUnlock => UnlockByWorker();
    }
  }

  /**
   * Any run of both threads on the linked tree and the linked lists is the same run of the state machine. So whatever
   * holds in every run of the machine holds of the linked structures, in particular what the tree tells. For every
   * replication among the events, calls says in which of the possible ways it succeeds or fails.
   */
  method RunServer(role: ServerRole, es: seq<Event>, calls: seq<Calls>) returns (server: TreeServer)
    requires Run(role, es).Some? && |calls| == |es|
    requires forall k :: 0 <= k < |es| && es[k].Replicate? ==>
               CallsFit(calls[k]) && (role == BACKUP || (es[k].sent <==> CallsSucceed(calls[k])))
    ensures fresh(server) && server.Valid() && fresh(server.Repr)
    ensures server.State() == Run(role, es).value
    ensures server.lock.Free? ==> TreeTellsHistory(server.State())
  {
    hide Enabled, Inv, Step, TreeTellsHistory, TreeServer.Valid;
    server := new TreeServer(role);
    for k := 0 to |es|
      invariant server.Valid() && fresh(server) && fresh(server.Repr) && server.role == role
      invariant Run(role, es[..k]) == Some(server.State())
    {
      RunNext(role, es, k);
      if es[k].Receive? || es[k].HandlerLock? || es[k].Answer? || es[k].Assign? || es[k].Append? || es[k].Reply? {
        server.PerformForHandler(es[k]);
      } else {
        server.PerformForWorker(es[k], calls[k]);
      }
    }
    assert es[..|es|] == es;
    if server.lock.Free? {
      FreeLockTree(role, es);
    }
  }

  /** In a run, the event at position k is possible after the first k events. */
  lemma RunNext(role: ServerRole, es: seq<Event>, k: nat)
    requires Run(role, es).Some? && k < |es|
    ensures Run(role, es[..k]).Some? && Inv(Run(role, es[..k]).value) && Enabled(Run(role, es[..k]).value, es[k])
    ensures Run(role, es[..k + 1]) == Some(Step(Run(role, es[..k]).value, es[k]))
  {
    RunGrows(role, es, k);
    RunGrows(role, es, k + 1);
    RunInv(role, es[..k]);
    assert es[..k + 1][..k] == es[..k];
  }
}
