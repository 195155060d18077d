/** The queue of pending tasks and the list of task results, as sequences. */
module Tasks {
  import opened Messages

  datatype TaskResult = SUCCESSFUL | NOT_EXECUTED | FAILED

  /** The integers behind the enumeration. */
  function Code(r: TaskResult): int {
    match r
    case SUCCESSFUL => 1
    case NOT_EXECUTED => 0
    case FAILED => -1
  }

  datatype Task = Task(id: int, request: Message)

  datatype Outcome = Outcome(id: int, result: TaskResult)

  /** queue: oldest task first; results: latest outcome first. */
  datatype Board = Board(lastId: int, queue: seq<Task>, results: seq<Outcome>)

  const EMPTY := Board(-1, [], [])

  function AssignId(b: Board): Board {
    b.(lastId := b.lastId + 1)
  }

  function Enqueue(b: Board, t: Task): Board {
    b.(queue := b.queue + [t])
  }

  /** A result is accepted for the head of the queue only, and NOT_EXECUTED is not a result. */
  predicate AcceptsResult(b: Board, id: int, r: TaskResult) {
    b.queue != [] && b.queue[0].id == id && r != NOT_EXECUTED
  }

  function SetResult(b: Board, id: int, r: TaskResult): Board {
    if AcceptsResult(b, id, r) then
      b.(queue := b.queue[1..], results := [Outcome(id, r)] + b.results)
    else b
  }

  /** The result recorded for an id anywhere in the list. */
  function ResultOf(results: seq<Outcome>, id: int): TaskResult {
    if results == [] then NOT_EXECUTED
    else if results[0].id == id then results[0].result
    else ResultOf(results[1..], id)
  }

  /** Ids count up from 0: results hold the lowest ids in descending order, the queue the next ones in order. */
  ghost predicate Numbered(b: Board) {
    && (forall i :: 0 <= i < |b.results| ==> b.results[i].id == |b.results| - 1 - i)
    && (forall i :: 0 <= i < |b.results| ==> b.results[i].result != NOT_EXECUTED)
    && (forall i :: 0 <= i < |b.queue| ==> b.queue[i].id == |b.results| + i)
  }

  /** Every assigned id is in the queue or in the results. */
  ghost predicate Complete(b: Board) {
    Numbered(b) && |b.results| + |b.queue| == b.lastId + 1
  }

  /** Exactly the latest id is still on its way into the queue. */
  ghost predicate OneOnItsWay(b: Board) {
    Numbered(b) && |b.results| + |b.queue| == b.lastId
  }

  /** The ids in results and queue together are exactly 0 up to the last one assigned, each in one place. */
  lemma CompleteIds(b: Board, id: int)
    requires Complete(b)
    ensures 0 <= id <= b.lastId <==>
            ((exists i :: 0 <= i < |b.results| && b.results[i].id == id) ||
             (exists i :: 0 <= i < |b.queue| && b.queue[i].id == id))
    ensures !((exists i :: 0 <= i < |b.results| && b.results[i].id == id) &&
              (exists i :: 0 <= i < |b.queue| && b.queue[i].id == id))
  {
    if 0 <= id < |b.results| {
      assert b.results[|b.results| - 1 - id].id == id;
    } else if |b.results| <= id <= b.lastId {
      assert b.queue[id - |b.results|].id == id;
    }
  }

  lemma AddKeepsNumbering(b: Board, request: Message)
    requires Complete(b)
    ensures OneOnItsWay(AssignId(b))
    ensures Complete(Enqueue(AssignId(b), Task(b.lastId + 1, request)))
  {
  }

  /** Recording a result moves exactly one id from the queue to the results; a refused one changes nothing. */
  lemma SetResultKeepsNumbering(b: Board, id: int, r: TaskResult)
    requires Numbered(b)
    ensures Numbered(SetResult(b, id, r))
    ensures Complete(b) ==> Complete(SetResult(b, id, r))
    ensures OneOnItsWay(b) ==> OneOnItsWay(SetResult(b, id, r))
  {
    var b' := SetResult(b, id, r);
    if b' != b {
      forall i | 0 <= i < |b'.results|
        ensures b'.results[i].id == |b'.results| - 1 - i && b'.results[i].result != NOT_EXECUTED
      {
        if i > 0 {
          assert b'.results[i] == b.results[i - 1];
        }
      }
    }
  }

  /** With numbered results an id is looked up by its position from the end. */
  lemma {:induction false} ResultOfAt(results: seq<Outcome>, id: int)
    requires forall i :: 0 <= i < |results| ==> results[i].id == |results| - 1 - i
    ensures ResultOf(results, id) ==
            if 0 <= id < |results| then results[|results| - 1 - id].result else NOT_EXECUTED
  {
    if results != [] && results[0].id != id {
      var rest := results[1..];
      assert forall i :: 0 <= i < |rest| ==> rest[i] == results[i + 1];
      ResultOfAt(rest, id);
    }
  }

  /** Once a result is known, recording further results never changes it. */
  lemma ResultIsFinal(b: Board, id: int, id': int, r: TaskResult)
    requires Numbered(b) && ResultOf(b.results, id) != NOT_EXECUTED
    ensures ResultOf(SetResult(b, id', r).results, id) == ResultOf(b.results, id)
  {
    ResultOfAt(b.results, id);
    var b' := SetResult(b, id', r);
    assert b'.results != b.results ==> b'.results[1..] == b.results;
  }
}
