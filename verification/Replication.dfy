/**
 * A primary and a backup, joined by an ordered channel of replicated writes. Clients send any request to the primary
 * and everything but writes to the backup.
 */
module Replication {
  import opened Wrappers
  import opened Messages
  import opened SearchTree
  import opened Sequences
  import opened Tasks
  import opened ServerMachine
  import opened ServerRoles

  datatype System = System(primary: Server, channel: seq<Message>, backup: Server)

  datatype SystemEvent =
    | OnPrimary(event: Event)
    | OnBackup(event: Event)
    | Deliver

  const INITIAL := System(Started(PRIMARY), [], Started(BACKUP))

  predicate Possible(s: System, e: SystemEvent) {
    match e
    case OnPrimary(p) => Enabled(s.primary, p)
    case OnBackup(b) => Enabled(s.backup, b) && (b.Receive? ==> !IsWrite(b.request))
    case Deliver => s.channel != [] && Enabled(s.backup, Receive(s.channel[0]))
  }

  function Next(s: System, e: SystemEvent): System
    requires Possible(s, e)
  {
    match e
    case OnPrimary(p) =>
      var primary := Step(s.primary, p);
      System(primary, s.channel + primary.forwarded[|s.primary.forwarded|..], s.backup)
    case OnBackup(b) => s.(backup := Step(s.backup, b))
    case Deliver => s.(channel := s.channel[1..], backup := Step(s.backup, Receive(s.channel[0])))
  }

  function After(es: seq<SystemEvent>): Option<System> {
    if es == [] then Some(INITIAL)
    else
      var last := es[|es| - 1];
      match After(es[..|es| - 1])
      case None => None
      case Some(s) => if Possible(s, last) then Some(Next(s, last)) else None
  }

  /** A replicated write that the backup has received but not queued yet. */
  function InHand(b: Server): seq<Message> {
    if (b.handler.Received? || b.handler.Inside? || b.handler.Numbered?) && IsWrite(b.handler.request)
    then [b.handler.request] else []
  }

  /** Replicated writes are, in order: those the backup has queued, the one in its hands, those in the channel. */
  ghost predicate InStep(s: System) {
    && s.primary.role == PRIMARY && s.backup.role == BACKUP
    && Inv(s.primary) && Inv(s.backup)
    && s.primary.forwarded == s.backup.accepted + InHand(s.backup) + s.channel
    && !s.backup.exited
  }

  lemma InitialInStep()
    ensures InStep(INITIAL)
  {
    StartedInv(PRIMARY);
    StartedInv(BACKUP);
  }

  /** What the backup has queued is a prefix of what the primary has executed and sent. */
  lemma BackupFollows(s: System, n: nat)
    requires InStep(s) && n <= |s.backup.accepted|
    ensures n <= Sent(s.primary) <= Done(s.primary) <= |s.primary.accepted|
    ensures s.backup.accepted[..n] == s.primary.accepted[..n]
    ensures Replay(s.primary.accepted[..n]).Some?
  {
    var p, b := s.primary, s.backup;
    assert b.accepted == p.forwarded[..|b.accepted|] == p.accepted[..|b.accepted|];
    assert b.accepted[..n] == p.accepted[..n];
    assert p.accepted[..Done(p)][..n] == p.accepted[..n];
    ReplayPrefix(p.accepted[..Done(p)], n);
  }

  /** The backup meets a write with the same tree that the primary had, so the write cannot fail there. */
  lemma BackupCannotFail(s: System)
    requires InStep(s) && Enabled(s.backup, Apply)
    ensures !Fails(s.backup.tree, s.backup.worker.task.request)
  {
    var b := s.backup;
    var n := |b.board.results|;
    BackupFollows(s, n);
    BackupFollows(s, n + 1);
    assert b.accepted[..n + 1][n] == s.primary.accepted[..n + 1][n];
    ReplayAppend(s.primary.accepted, n);
  }

  lemma StepForwards(s: Server, e: Event)
    requires Enabled(s, e)
    ensures Step(s, e).role == s.role && s.forwarded <= Step(s, e).forwarded
  {
  }

  lemma PrimaryStepInStep(s: System, e: Event)
    requires InStep(s) && Possible(s, OnPrimary(e))
    ensures InStep(Next(s, OnPrimary(e)))
  {
    hide Inv, Step;
    StepKeepsInv(s.primary, e);
    StepForwards(s.primary, e);
    var before, after := s.primary.forwarded, Step(s.primary, e).forwarded;
    assert after == before + after[|before|..];
    var b := s.backup;
    Regroup(b.accepted + InHand(b), s.channel, after[|before|..]);
  }

  lemma BackupStepInStep(s: System, e: Event)
    requires InStep(s) && Possible(s, OnBackup(e))
    ensures InStep(Next(s, OnBackup(e)))
  {
    StepKeepsInv(s.backup, e);
    ExitCauses(s.backup, e);
    if e.Apply? {
      BackupCannotFail(s);
    }
    var b, b' := s.backup, Step(s.backup, e);
    assert b'.accepted + InHand(b') == b.accepted + InHand(b);
  }

  lemma DeliverInStep(s: System)
    requires InStep(s) && Possible(s, Deliver)
    ensures InStep(Next(s, Deliver))
  {
    var m := s.channel[0];
    StepKeepsInv(s.backup, Receive(m));
    assert m in s.primary.forwarded && m in s.primary.accepted;
    assert IsWrite(m);
    assert s.channel == [m] + s.channel[1..];
    assert s.backup.accepted + [] + ([m] + s.channel[1..]) == s.backup.accepted + [m] + s.channel[1..];
  }

  /**
   * In every reachable state of the two servers the replicated writes equal, in order, the backup's accepted writes
   * (executed, then queued), the one in its hands and those in the channel; and the backup has not exited.
   */
  lemma {:induction false} AlwaysInStep(es: seq<SystemEvent>)
    requires After(es).Some?
    ensures InStep(After(es).value)
  {
    if es == [] {
      InitialInStep();
    } else {
      AlwaysInStep(es[..|es| - 1]);
      var s := After(es[..|es| - 1]).value;
      match es[|es| - 1]
      case OnPrimary(e) => PrimaryStepInStep(s, e);
      case OnBackup(e) => BackupStepInStep(s, e);
      case Deliver => DeliverInStep(s);
    }
  }

  /** A delivery waits for nothing but the backup's main thread. */
  lemma DeliveryIsPossible(es: seq<SystemEvent>)
    requires After(es).Some? && After(es).value.channel != [] && After(es).value.backup.handler.Idle?
    ensures Possible(After(es).value, Deliver)
  {
    AlwaysInStep(es);
    var s := After(es).value;
    assert s.channel[0] in s.primary.forwarded && s.channel[0] in s.primary.accepted;
  }

  /** The backup never exits while processing replicated writes, whatever the primary does. */
  lemma BackupNeverExits(es: seq<SystemEvent>)
    requires After(es).Some?
    ensures !After(es).value.backup.exited
  {
    AlwaysInStep(es);
  }

  lemma SameIdInState(s: System, id: nat)
    requires InStep(s) && id < |s.backup.accepted|
    ensures id < |s.primary.accepted| && s.backup.accepted[id] == s.primary.accepted[id]
  {
    BackupFollows(s, id + 1);
    assert s.backup.accepted[..id + 1][id] == s.primary.accepted[..id + 1][id];
  }

  /**
   * Both servers number a replicated write alike: the backup's task with some id is the primary's write with that id,
   * whether it is still queued there or has a result. So verify of a primary id at the backup asks about that write.
   */
  lemma SameIdSameWrite(es: seq<SystemEvent>, id: nat)
    requires After(es).Some? && id < |After(es).value.backup.accepted|
    ensures var s := After(es).value;
            var n, b := |s.backup.board.results|, s.backup.board;
            && id < |s.primary.accepted| && s.backup.accepted[id] == s.primary.accepted[id]
            && if n <= id then id - n < |b.queue| && b.queue[id - n] == Task(id, s.primary.accepted[id])
               else b.results[n - 1 - id] == Outcome(id, SUCCESSFUL)
  {
    AlwaysInStep(es);
    var s := After(es).value;
    SameIdInState(s, id);
    QueuedInOrder(s.backup);
  }

  /** Once all replicated writes have been delivered and both queues are empty, both servers hold the same tree. */
  lemma TreesConverge(es: seq<SystemEvent>)
    requires After(es).Some? && After(es).value.channel == [] && InHand(After(es).value.backup) == []
    requires After(es).value.primary.board.queue == [] && After(es).value.backup.board.queue == []
    ensures After(es).value.primary.tree == After(es).value.backup.tree
    ensures After(es).value.primary.accepted == After(es).value.backup.accepted
  {
    AlwaysInStep(es);
    var p, b := After(es).value.primary, After(es).value.backup;
    assert p.accepted[..|p.accepted|] == p.accepted && b.accepted[..|b.accepted|] == b.accepted;
  }

  // ---------- What clients can read ----------

  predicate BothGrown(s: System, later: System) {
    GrownFrom(s.primary, later.primary) && GrownFrom(s.backup, later.backup)
  }

  lemma NextGrows(s: System, e: SystemEvent)
    requires Possible(s, e)
    ensures BothGrown(s, Next(s, e))
  {
    hide Step;
    match e
    case OnPrimary(p) => StepGrows(s.primary, p);
    case OnBackup(b) => StepGrows(s.backup, b);
    case Deliver => StepGrows(s.backup, Receive(s.channel[0]));
  }

  /** Along a run histories only grow, on both servers, and no recorded outcome is lost or changed. */
  lemma {:induction false} AfterGrows(es: seq<SystemEvent>, a: nat)
    requires a <= |es| && After(es).Some?
    ensures After(es[..a]).Some?
    ensures BothGrown(After(es[..a]).value, After(es).value)
    decreases |es|
  {
    if a == |es| {
      assert es[..a] == es;
    } else {
      hide GrownFrom, Next, Possible;
      assert es[..|es| - 1][..a] == es[..a];
      AfterGrows(es[..|es| - 1], a);
      var s, s', s'' := After(es[..a]).value, After(es[..|es| - 1]).value, After(es).value;
      NextGrows(s', es[|es| - 1]);
      GrownFromTransitive(s.primary, s'.primary, s''.primary);
      GrownFromTransitive(s.backup, s'.backup, s''.backup);
    }
  }

  lemma AcceptedStays(es: seq<SystemEvent>, a: nat)
    requires a <= |es| && After(es).Some?
    ensures After(es[..a]).Some? && After(es[..a]).value.primary.accepted <= After(es).value.primary.accepted
  {
    hide After;
    AfterGrows(es, a);
  }

  /** At some point of the run the primary's tree was t, after exactly n of its writes. */
  ghost predicate PrimaryHad(es: seq<SystemEvent>, n: nat, t: Tree) {
    exists c :: 0 <= c <= |es| && PrimaryHolds(After(es[..c]), n, t)
  }

  ghost predicate PrimaryHolds(s: Option<System>, n: nat, t: Tree) {
    s.Some? && Done(s.value.primary) == n && s.value.primary.tree == t
  }

  lemma PrimaryHoldsReplay(s: System)
    requires InStep(s)
    ensures var n := Done(s.primary);
            n <= |s.primary.accepted| && Replay(s.primary.accepted[..n]) == Some(s.primary.tree)
  {
  }

  lemma DoneGrowsByOne(s: Server, e: Event)
    requires Inv(s) && Enabled(s, e)
    ensures Done(s) <= Done(Step(s, e)) <= Done(s) + 1
    ensures s.accepted <= Step(s, e).accepted
  {
  }

  lemma NextDone(s: System, e: SystemEvent)
    requires InStep(s) && Possible(s, e)
    ensures Done(s.primary) <= Done(Next(s, e).primary) <= Done(s.primary) + 1
    ensures s.primary.accepted <= Next(s, e).primary.accepted
  {
    if e.OnPrimary? {
      DoneGrowsByOne(s.primary, e.event);
    }
  }

  lemma {:induction false} PrimaryPassedThrough(es: seq<SystemEvent>, n: nat)
    requires After(es).Some? && n <= Done(After(es).value.primary)
    ensures n <= |After(es).value.primary.accepted|
    ensures Replay(After(es).value.primary.accepted[..n]).Some?
    ensures PrimaryHad(es, n, Replay(After(es).value.primary.accepted[..n]).value)
    decreases |es|
  {
    hide Done, InStep, Next, Possible, Replay;
    AlwaysInStep(es);
    var s := After(es).value;
    PrimaryHoldsReplay(s);
    if n == Done(s.primary) {
      assert es[..|es|] == es;
      assert PrimaryHolds(After(es[..|es|]), n, s.primary.tree);
    } else {
      NotAtFirst(es, n);
      var es' := es[..|es| - 1];
      AlwaysInStep(es');
      var s' := After(es').value;
      NextDone(s', es[|es| - 1]);
      PrimaryPassedThrough(es', n);
      assert s.primary.accepted[..n] == s'.primary.accepted[..n];
      var t := Replay(s.primary.accepted[..n]).value;
      var c :| 0 <= c <= |es'| && PrimaryHolds(After(es'[..c]), n, t);
      assert es'[..c] == es[..c];
    }
  }

  lemma NotAtFirst(es: seq<SystemEvent>, n: nat)
    requires After(es).Some? && n < Done(After(es).value.primary)
    ensures es != []
  {
  }

  /** How many writes the backup had executed after the first k events. */
  function Executed(es: seq<SystemEvent>, k: nat): nat
    requires k <= |es|
  {
    match After(es[..k])
    case None => 0
    case Some(s) => |s.backup.board.results|
  }

  lemma AnswerTree(s: System)
    requires InStep(s) && Enabled(s.backup, Answer)
    ensures var j := |s.backup.board.results|;
            && j <= Done(s.primary) <= |s.primary.accepted|
            && Replay(s.primary.accepted[..j]) == Some(s.backup.tree)
  {
    BackupFollows(s, |s.backup.board.results|);
  }

  /**
   * Every answer of the backup is the answer for a tree that the primary had after j of its writes, where j is the
   * number of writes that the backup has executed; and verify says 1 exactly for the ids below j.
   */
  lemma BackupAnswers(es: seq<SystemEvent>)
    requires es != [] && After(es).Some? && es[|es| - 1] == OnBackup(Answer)
    ensures var s := After(es).value;
            var j, m := Executed(es, |es| - 1), s.backup.handler.request;
            && j <= |s.primary.accepted|
            && Replay(s.primary.accepted[..j]).Some?
            && (var t := Replay(s.primary.accepted[..j]).value;
                && PrimaryHad(es, j, t)
                && s.backup.handler.response == Respond(t, s.backup.board.results, m))
            && (m.opCode == OP_VERIFY && m.content.OpId? ==>
                  s.backup.handler.response ==
                  Message(OP_VERIFY + 1, IntResult(if 0 <= m.content.opId < j then 1 else 0)))
  {
    hide Done, Enabled, InStep, Inv, Next, PrimaryHad, Replay, Respond, Step;
    var es' := es[..|es| - 1];
    AlwaysInStep(es');
    var s := After(es').value;
    AnswerTree(s);
    PrimaryPassedThrough(es', |s.backup.board.results|);
    PastIsKept(es', es, |s.backup.board.results|, s.backup.tree);
    AnswerGiven(s);
  }

  lemma PastIsKept(early: seq<SystemEvent>, late: seq<SystemEvent>, n: nat, t: Tree)
    requires early <= late && PrimaryHad(early, n, t)
    ensures PrimaryHad(late, n, t)
  {
    var c :| 0 <= c <= |early| && PrimaryHolds(After(early[..c]), n, t);
    assert early[..c] == late[..c];
  }

  lemma AnswerGiven(s: System)
    requires InStep(s) && Possible(s, OnBackup(Answer))
    ensures var s', m := Next(s, OnBackup(Answer)), s.backup.handler.request;
            && s'.primary == s.primary && s'.backup.board == s.backup.board
            && s'.backup.handler.Answered? && s'.backup.handler.request == m
            && s'.backup.handler.response == Respond(s.backup.tree, s.backup.board.results, m)
            && (m.opCode == OP_VERIFY && m.content.OpId? ==>
                  s'.backup.handler.response ==
                  Message(OP_VERIFY + 1, IntResult(if 0 <= m.content.opId < |s.backup.board.results| then 1 else 0)))
  {
    if s.backup.handler.request.content.OpId? {
      ResultMeansExecuted(s.backup, s.backup.handler.request.content.opId);
    }
  }

  /** Reads never go back: j of BackupAnswers does not decrease along a run. */
  lemma ReadsAreMonotone(es: seq<SystemEvent>, a: nat, b: nat)
    requires a <= b <= |es| && After(es).Some?
    ensures Executed(es, a) <= Executed(es, b)
  {
    AfterGrows(es, b);
    assert es[..b][..a] == es[..a];
    AfterGrows(es[..b], a);
  }

  /** After verify(id) has answered 1 at the backup, every later read reflects the write with that id. */
  lemma {:induction false} ReadsFollowVerify(es: seq<SystemEvent>, a: nat, b: nat)
    requires a < b < |es| && After(es).Some?
    requires es[a] == OnBackup(Answer) && es[b] == OnBackup(Answer)
    requires After(es[..a + 1]).Some?
    requires var h := After(es[..a + 1]).value.backup.handler;
             && h.Answered? && h.request.opCode == OP_VERIFY && h.request.content.OpId?
             && h.response.content == IntResult(1)
    ensures 0 <= After(es[..a + 1]).value.backup.handler.request.content.opId < Executed(es, b)
  {
    var first := es[..a + 1];
    assert first[..|first| - 1] == es[..a];
    assert Executed(first, |first| - 1) == Executed(es, a);
    BackupAnswers(first);
    ReadsAreMonotone(es, a, b);
  }

  /** The id in the response to a write is the position of that very write among all accepted writes. */
  lemma WriteGetsItsId(es: seq<SystemEvent>)
    requires es != [] && After(es).Some? && es[|es| - 1] == OnPrimary(Append)
    ensures var p := After(es).value.primary;
            && p.handler.Answered? && p.handler.response.content.OpId?
            && (var id := p.handler.response.content.opId;
                0 <= id < |p.accepted| && p.accepted[id] == p.handler.request)
  {
    AlwaysInStep(es[..|es| - 1]);
  }

  /**
   * A client's own write: the primary's response to it carried an id (event a), and verify of that id at the backup
   * has answered 1 (event b). Then the latest answer of the backup is one for a tree after j of the primary's writes,
   * and that very write is among these.
   */
  lemma OwnWriteIsRead(es: seq<SystemEvent>, a: nat, b: nat)
    requires a < |es| && b < |es| - 1 && After(es).Some? && After(es[..a + 1]).Some? && After(es[..b + 1]).Some?
    requires es[a] == OnPrimary(Append) && es[b] == OnBackup(Answer) && es[|es| - 1] == OnBackup(Answer)
    requires var h := After(es[..b + 1]).value.backup.handler;
             && h.Answered? && h.request.opCode == OP_VERIFY && h.request.content.OpId?
             && h.response.content == IntResult(1)
             && After(es[..a + 1]).value.primary.handler.Answered?
             && After(es[..a + 1]).value.primary.handler.response.content == OpId(h.request.content.opId)
    ensures var s, j := After(es).value, Executed(es, |es| - 1);
            var write := After(es[..a + 1]).value.primary.handler;
            var id := write.response.content.opId;
            && 0 <= id < j <= |s.primary.accepted| && s.primary.accepted[id] == write.request
            && Replay(s.primary.accepted[..j]).Some?
            && s.backup.handler.response ==
               Respond(Replay(s.primary.accepted[..j]).value, s.backup.board.results, s.backup.handler.request)
  {
    hide *;
    WriteGetsItsId(es[..a + 1]);
    AcceptedStays(es, a + 1);
    ReadsFollowVerify(es, b, |es| - 1);
    BackupAnswers(es);
  }
}
