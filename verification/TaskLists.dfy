/** The linked lists of tasks-private.c: a queue appended at its end and a result list pushed at its head. */
module TaskLists {
  import opened Messages
  import opened Tasks

  class TaskRecord {
    const id: int
    const request: Message
    ghost var freed: bool

    constructor (id: int, request: Message)
      ensures this.id == id && this.request == request && !freed
    {
      this.id, this.request, freed := id, request, false;
    }
  }

  class QueueNode {
    var task: TaskRecord
    var next: QueueNode?

    constructor (task: TaskRecord)
      ensures this.task == task && next == null
    {
      this.task, next := task, null;
    }
  }

  class ResultNode {
    var id: int
    var result: TaskResult
    var previous: ResultNode?

    constructor (id: int, result: TaskResult, previous: ResultNode?)
      ensures this.id == id && this.result == result && this.previous == previous
    {
      this.id, this.result, this.previous := id, result, previous;
    }
  }

  class TaskBoard {
    var lastId: int
    var queueHead: QueueNode?
    var resultsHead: ResultNode?
    ghost var nodes: seq<QueueNode>
    ghost var records: seq<TaskRecord>
    ghost var queue: seq<Task>
    ghost var log: seq<ResultNode>
    ghost var results: seq<Outcome>
    ghost var Repr: set<object>

    /** The lists are linked as the ghost sequences say, and no queued task has been freed. */
    ghost predicate Valid()
      reads this, Repr
    {
      && this in Repr
      && QueueLinked()
      && LogLinked()
    }

    ghost predicate QueueLinked()
      requires this in Repr
      reads this, Repr
    {
      && |nodes| == |records| == |queue|
      && queueHead == (if nodes == [] then null else nodes[0])
      && (forall i :: 0 <= i < |nodes| ==>
            && nodes[i] in Repr && nodes[i].task == records[i] && records[i] in Repr && !records[i].freed
            && queue[i] == Task(records[i].id, records[i].request))
      && (forall i {:trigger nodes[i].next} :: 0 <= i < |nodes| ==>
            nodes[i].next == if i + 1 < |nodes| then nodes[i + 1] else null)
      && (forall i, j :: 0 <= i < j < |nodes| ==> nodes[i] != nodes[j] && records[i] != records[j])
    }

    ghost predicate LogLinked()
      requires this in Repr
      reads this, Repr
    {
      && |log| == |results|
      && resultsHead == (if log == [] then null else log[0])
      && (forall i :: 0 <= i < |log| ==>
            log[i] in Repr && results[i] == Outcome(log[i].id, log[i].result))
      && (forall i {:trigger log[i].previous} :: 0 <= i < |log| ==>
            log[i].previous == if i + 1 < |log| then log[i + 1] else null)
    }

    ghost function Board(): Board
      reads this
    {
      Tasks.Board(lastId, queue, results)
    }

    constructor ()
      ensures Valid() && fresh(Repr) && Board() == EMPTY
    {
      lastId, queueHead, resultsHead := -1, null, null;
      nodes, records, queue, log, results, Repr := [], [], [], [], [], {this};
    }

    /** _task_create: assigns the next id to a copy of the request. */
    method CreateTask(request: Message) returns (task: TaskRecord)
      requires Valid()
      modifies this
      ensures Valid() && Repr == old(Repr) && records == old(records)
      ensures Board() == AssignId(old(Board()))
      ensures fresh(task) && !task.freed && task.id == lastId && task.request == request
    {
      lastId := lastId + 1;
      task := new TaskRecord(lastId, request);
    }

    /** The node at the end of the queue, reached by following the links from the head. */
    method LastNode() returns (last: QueueNode)
      requires Valid() && queueHead != null
      ensures last == nodes[|nodes| - 1]
    {
      last := queueHead;
      ghost var i := 0;
      while last.next != null
        invariant 0 <= i < |nodes| && last == nodes[i]
        decreases |nodes| - i
      {
        last := last.next;
        i := i + 1;
      }
    }

    /** Hangs a node behind the last one. */
    method HangNode(node: QueueNode, last: QueueNode?)
      requires Valid() && node !in Repr && node.task !in Repr && !node.task.freed && node.next == null
      requires last == if nodes == [] then null else nodes[|nodes| - 1]
      modifies this, last
      ensures Valid() && Repr == old(Repr) + {node, node.task}
      ensures node.task == old(node.task)
      ensures records == old(records) + [node.task]
      ensures Board() == Enqueue(old(Board()), Task(node.task.id, node.task.request))
    {
      if last == null {
        queueHead := node;
      } else {
        last.next := node;
      }
      nodes, records := nodes + [node], records + [node.task];
      queue := queue + [Task(node.task.id, node.task.request)];
      Repr := Repr + {node, node.task};
    }

    /** The second half of tasks_add_task: walks to the end of the queue and hangs the task there. */
    method Append(task: TaskRecord)
      requires Valid() && task !in Repr && !task.freed
      modifies Repr
      ensures Valid() && fresh(Repr - old(Repr) - {task})
      ensures records == old(records) + [task]
      ensures Board() == Enqueue(old(Board()), Task(task.id, task.request))
    {
      var node := new QueueNode(task);
      var last: QueueNode? := null;
      if queueHead != null {
        last := LastNode();
      }
      HangNode(node, last);
    }

    /** tasks_get_next once the queue is not empty: the head, which stays in the queue. */
    method GetNext() returns (task: TaskRecord)
      requires Valid() && queueHead != null
      ensures task == records[0] && !task.freed
      ensures Task(task.id, task.request) == Board().queue[0]
    {
      task := queueHead.task;
    }

    /** tasks_set_result: moves the head of the queue to the results, or refuses and changes nothing. */
    method SetResult(id: int, result: TaskResult) returns (r: int)
      requires Valid()
      modifies Repr
      ensures Valid() && fresh(Repr - old(Repr))
      ensures r == if AcceptsResult(old(Board()), id, result) then 0 else -1
      ensures Board() == Tasks.SetResult(old(Board()), id, result)
      ensures records == if r == 0 then old(records[1..]) else old(records)
      ensures r == 0 ==> old(records)[0].freed
    {
      if queueHead == null || queueHead.task.id != id {
        return -1;
      }
      if result == NOT_EXECUTED {
        return -1;
      }
      PushResult(id, result);
      PopHead();
      r := 0;
    }

    method PushResult(id: int, result: TaskResult)
      requires Valid()
      modifies this
      ensures Valid() && fresh(Repr - old(Repr)) && old(Repr) <= Repr
      ensures queueHead == old(queueHead) && nodes == old(nodes) && records == old(records)
      ensures Board() == old(Board()).(results := [Outcome(id, result)] + old(results))
    {
      var resultNode := new ResultNode(id, result, resultsHead);
      resultsHead := resultNode;
      log, results := [resultNode] + log, [Outcome(id, result)] + results;
      Repr := Repr + {resultNode};
    }

    /** Takes the head out of the queue and frees its task. */
    method PopHead()
      requires Valid() && queueHead != null
      modifies this, queueHead, queueHead.task
      ensures Valid() && Repr == old(Repr)
      ensures Board() == old(Board()).(queue := old(queue[1..]))
      ensures records == old(records[1..]) && old(records)[0].freed
    {
      var taskNode := queueHead;
      queueHead := taskNode.next;
      taskNode.task.freed := true;
      taskNode.next := null;
      nodes, records, queue := nodes[1..], records[1..], queue[1..];
    }

    /** tasks_get_result: a scan that gives up at the first id below the wanted one. */
    method GetResult(id: int) returns (result: TaskResult)
      requires Valid() && Numbered(Board())
      ensures result == ResultOf(Board().results, id)
    {
      ResultOfAt(Board().results, id);
      var current := resultsHead;
      ghost var i := 0;
      while current != null && current.id >= id
        invariant 0 <= i <= |log| && current == if i < |log| then log[i] else null
        invariant forall j :: 0 <= j < i ==> log[j].id > id
        decreases |log| - i
      {
        if current.id == id {
          return current.result;
        }
        current := current.previous;
        i := i + 1;
      }
      assert current != null ==> results[i].id < id;
      assert i > 0 ==> results[i - 1].id > id;
      result := NOT_EXECUTED;
    }
  }
}
