/**
 * What happens when clients stop sending requests: both servers run out of work after a bounded number of steps, they
 * cannot get stuck before that, and then they hold the same tree.
 */
module Progress {
  import opened Wrappers
  import opened Messages
  import opened ServerMachine
  import opened Tasks
  import R = Replication

  // ---------- One server ----------

  /** How many steps the worker still needs for what is in its hands, beyond the queue. */
  function WorkerWork(w: Worker): int {
    match w
    case Waiting => 0
    case Peeked(_) => -1
    case Holding(_) => -2
    case Applied(_) => -3
    case Judged(_, _) => -4
    case Recorded => 1
  }

  /** How many steps the request in hand can still cause, in both threads. */
  function HandlerWork(h: Handler): nat {
    match h
    case Idle => 0
    case Received(_) => 10
    case Inside(_) => 9
    case Numbered(_, _) => 8
    case Answered(_, _) => 1
  }

  /** An upper bound for the steps that a server can take without a new request. */
  function Work(s: Server): int {
    if s.exited then 0 else 6 * |s.board.queue| + WorkerWork(s.worker) + HandlerWork(s.handler)
  }

  lemma WorkIsNatural(s: Server)
    requires Inv(s)
    ensures Work(s) >= 0
    ensures Work(s) == 0 <==> s.exited || AtRest(s)
  {
  }

  /** Nobody has anything to do. */
  predicate AtRest(s: Server) {
    s.handler.Idle? && s.worker.Waiting? && s.board.queue == []
  }

  lemma HandlerUsesUpWork(s: Server, e: Event)
    requires Inv(s) && Enabled(s, e) && (e.HandlerLock? || e.Answer? || e.Assign? || e.Append? || e.Reply?)
    ensures Work(Step(s, e)) < Work(s)
  {
    hide Inv, Respond;
  }

  lemma WorkerUsesUpWork(s: Server, e: Event)
    requires Inv(s) && Enabled(s, e)
    requires e.Peek? || e.WorkerLock? || e.Apply? || e.Refuse? || e.Replicate? || e.Record? || e.WorkerUnlock?
    ensures Work(Step(s, e)) < Work(s)
  {
    WorkIsNatural(s);
    HeadInHand(s);
    hide Execute, Inv;
  }

  lemma HeadInHand(s: Server)
    requires Inv(s)
    ensures s.worker.Peeked? || s.worker.Holding? || s.worker.Applied? || s.worker.Judged? ==>
              s.board.queue != [] && s.board.queue[0] == s.worker.task
    ensures s.worker.Judged? ==> s.worker.result == SUCCESSFUL
  {
  }

  /** Every step but the arrival of a request leaves less work. */
  lemma StepsUseUpWork(s: Server, e: Event)
    requires Inv(s) && Enabled(s, e) && !e.Receive?
    ensures Work(Step(s, e)) < Work(s)
  {
    if e.HandlerLock? || e.Answer? || e.Assign? || e.Append? || e.Reply? {
      HandlerUsesUpWork(s, e);
    } else {
      WorkerUsesUpWork(s, e);
    }
  }

  lemma RequestsAddWork(s: Server, m: Message)
    requires Enabled(s, Receive(m))
    ensures Work(Step(s, Receive(m))) == Work(s) + 10
  {
  }

  /** A step that one of the threads can take; None if both wait. Replication is taken to succeed. */
  function NextStep(s: Server): Option<Event> {
    match s.handler
    case Inside(m) => Some(if IsWrite(m) then Assign else Answer)
    case Numbered(_, _) => Some(Append)
    case Answered(_, _) => Some(Reply)
    case _ =>
      match s.worker
      case Holding(task) => Some(Apply)
      case Applied(_) => Some(Replicate(true))
      case Judged(_, _) => Some(Record)
      case Recorded => Some(WorkerUnlock)
      case Peeked(_) => Some(WorkerLock)
      case Waiting =>
        if s.board.queue != [] then Some(Peek) else if s.handler.Received? then Some(HandlerLock) else None
  }

  /** In every reachable state of a server that has not exited, some thread can take a step, or nothing is to do. */
  lemma NeverStuck(s: Server)
    requires Inv(s) && !s.exited
    ensures NextStep(s).None? <==> AtRest(s)
    ensures NextStep(s).Some? ==>
              Enabled(s, NextStep(s).value) && !NextStep(s).value.Receive? && !NextStep(s).value.Refuse?
  {
  }

  // ---------- Two servers ----------

  predicate IsRequest(e: R.SystemEvent) {
    !e.Deliver? && e.event.Receive?
  }

  /** The run goes on from es without requests from clients. */
  ghost predicate Silent(es: seq<R.SystemEvent>, run: seq<R.SystemEvent>) {
    es <= run && forall k :: |es| <= k < |run| ==> !IsRequest(run[k])
  }

  /** An upper bound for the steps of the whole system without requests from clients. */
  function Load(s: R.System): int {
    12 * Work(s.primary) + 11 * |s.channel| + Work(s.backup)
  }

  lemma LoadIsNatural(s: R.System)
    requires R.InStep(s)
    ensures Load(s) >= 0
  {
    WorkIsNatural(s.primary);
    WorkIsNatural(s.backup);
  }

  lemma NextUsesUpLoad(s: R.System, e: R.SystemEvent)
    requires R.InStep(s) && R.Possible(s, e) && !IsRequest(e)
    ensures Load(R.Next(s, e)) < Load(s)
  {
    hide Work;
    match e
    case OnPrimary(p) =>
      StepsUseUpWork(s.primary, p);
      ForwardsOne(s.primary, p);
    case OnBackup(b) => StepsUseUpWork(s.backup, b);
    case Deliver => RequestsAddWork(s.backup, s.channel[0]);
  }

  lemma ForwardsOne(s: Server, e: Event)
    requires Enabled(s, e)
    ensures |s.forwarded| <= |Step(s, e).forwarded| <= |s.forwarded| + 1
  {
  }

  /** No run without requests from clients goes on forever: its length is bounded by the load at its start. */
  lemma {:induction false} SilentRunsEnd(es: seq<R.SystemEvent>, run: seq<R.SystemEvent>)
    requires R.After(run).Some? && Silent(es, run)
    ensures R.After(es).Some? && R.InStep(R.After(es).value)
    ensures Load(R.After(run).value) + |run| - |es| <= Load(R.After(es).value)
    decreases |run|
  {
    hide Load, R.InStep, R.Next, R.Possible;
    R.AlwaysInStep(run);
    if run == es {
    } else {
      var n := |run| - 1;
      assert Silent(es, run[..n]);
      SilentRunsEnd(es, run[..n]);
      R.AlwaysInStep(run[..n]);
      NextUsesUpLoad(R.After(run[..n]).value, run[n]);
    }
  }

  lemma Follow(es: seq<R.SystemEvent>, run: seq<R.SystemEvent>, e: R.SystemEvent)
    requires R.After(run).Some? && R.Possible(R.After(run).value, e) && Silent(es, run) && !IsRequest(e)
    ensures R.After(run + [e]) == Some(R.Next(R.After(run).value, e)) && Silent(es, run + [e])
  {
    assert (run + [e])[..|run|] == run;
  }

  /** An event that is possible without a request from a client; None if there is none but failing replications. */
  function NextEvent(s: R.System): Option<R.SystemEvent> {
    if !s.primary.exited && NextStep(s.primary).Some? then Some(R.OnPrimary(NextStep(s.primary).value))
    else if NextStep(s.backup).Some? then Some(R.OnBackup(NextStep(s.backup).value))
    else if s.channel != [] then Some(R.Deliver)
    else None
  }

  /** Everything sent has been delivered, and neither server has anything to do, but for a primary that has exited. */
  predicate Settled(s: R.System) {
    (s.primary.exited || AtRest(s.primary)) && s.channel == [] && AtRest(s.backup)
  }

  lemma SystemNeverStuck(s: R.System)
    requires R.InStep(s)
    ensures NextEvent(s).None? <==> Settled(s)
    ensures NextEvent(s).Some? ==> R.Possible(s, NextEvent(s).value) && !IsRequest(NextEvent(s).value)
  {
    hide Inv;
    NeverStuck(s.backup);
    if !s.primary.exited {
      NeverStuck(s.primary);
    }
    if NextEvent(s) == Some(R.Deliver) {
      DeliveryPossible(s);
    }
  }

  lemma DeliveryPossible(s: R.System)
    requires R.InStep(s) && s.channel != [] && s.backup.handler.Idle?
    ensures R.Possible(s, R.Deliver)
  {
    assert s.channel[0] in s.primary.forwarded && s.channel[0] in s.primary.accepted;
  }

  /** If the primary has exited, that was because one of its accepted writes fails. */
  ghost predicate ExitExplained(s: R.System) {
    s.primary.exited ==> Replay(s.primary.accepted).None?
  }

  lemma ExitStaysExplained(s: R.System)
    requires R.InStep(s) && ExitExplained(s) && NextEvent(s).Some?
    ensures R.Possible(s, NextEvent(s).value) && ExitExplained(R.Next(s, NextEvent(s).value))
  {
    SystemNeverStuck(s);
    hide Inv, NextEvent, Replay, Step;
    var e := NextEvent(s).value;
    if e.OnPrimary? {
      NeverGivesUp(s);
      ExitMeansFailure(s.primary, e.event);
    }
  }

  lemma NeverGivesUp(s: R.System)
    requires NextEvent(s).Some? && NextEvent(s).value.OnPrimary?
    ensures NextEvent(s).value.event != Replicate(false)
  {
  }

  /** A server that exits, but not for a failed replication, has accepted a write that fails. */
  lemma ExitMeansFailure(s: Server, e: Event)
    requires Inv(s) && Enabled(s, e) && e != Replicate(false)
    ensures Step(s, e).exited ==> Replay(Step(s, e).accepted).None?
  {
    ExitCauses(s, e);
    if Step(s, e).exited {
      var n := Done(s);
      ReplayAppend(s.accepted, n);
      if Replay(s.accepted).Some? {
        ReplayPrefix(s.accepted, n + 1);
      }
    }
  }

  function LoadOf(es: seq<R.SystemEvent>): int {
    if R.After(es).None? then 0 else Load(R.After(es).value)
  }

  lemma {:induction false} SettleFrom(es: seq<R.SystemEvent>, past: seq<R.SystemEvent>)
    returns (run: seq<R.SystemEvent>)
    requires R.After(past).Some? && Silent(es, past)
    requires R.InStep(R.After(past).value) && ExitExplained(R.After(past).value)
    ensures Silent(es, run) && R.After(run).Some? && Settled(R.After(run).value) && ExitExplained(R.After(run).value)
    decreases LoadOf(past)
  {
    hide ExitExplained, Load, NextEvent, R.After, R.InStep, R.Next, R.Possible, Settled, Silent;
    var s := R.After(past).value;
    SystemNeverStuck(s);
    if NextEvent(s).None? {
      run := past;
    } else {
      var e := NextEvent(s).value;
      Follow(es, past, e);
      ExitStaysExplained(s);
      R.AlwaysInStep(past + [e]);
      NextUsesUpLoad(s, e);
      LoadIsNatural(R.Next(s, e));
      run := SettleFrom(es, past + [e]);
    }
  }

  lemma AgreeWhenSettled(run: seq<R.SystemEvent>)
    requires R.After(run).Some? && Settled(R.After(run).value) && ExitExplained(R.After(run).value)
    ensures var s := R.After(run).value;
            Replay(s.primary.accepted).Some? ==>
              !s.primary.exited && s.primary.tree == s.backup.tree && Replay(s.primary.accepted) == Some(s.primary.tree)
  {
    R.AlwaysInStep(run);
    var s := R.After(run).value;
    if Replay(s.primary.accepted).Some? {
      R.TreesConverge(run);
      assert s.primary.accepted[..Done(s.primary)] == s.primary.accepted;
    }
  }

  /**
   * From every reachable state in which the primary has not exited, the two servers can settle without new requests.
   * Then both hold the same tree, the replay of all writes that the primary has accepted, unless one of these fails.
   */
  lemma Settle(es: seq<R.SystemEvent>) returns (run: seq<R.SystemEvent>)
    requires R.After(es).Some? && !R.After(es).value.primary.exited
    ensures Silent(es, run) && R.After(run).Some? && Settled(R.After(run).value)
    ensures var s := R.After(run).value;
            Replay(s.primary.accepted).Some? ==>
              !s.primary.exited && s.primary.tree == s.backup.tree && Replay(s.primary.accepted) == Some(s.primary.tree)
  {
    R.AlwaysInStep(es);
    run := SettleFrom(es, es);
    AgreeWhenSettled(run);
  }
}
