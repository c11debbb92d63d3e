/** A task record as the REST API returns it, the status values the board
    knows, and how a list of tasks splits by status. */
module TaskModel {
  import opened Base
  import opened Seqs

  const OPEN: string := "OPEN"
  const IN_PROGRESS: string := "IN_PROGRESS"
  const DONE: string := "DONE"

  /** A task. Status and priority are the strings the server sends; the client
      compares them with `===` and never checks them against the enumeration. */
  datatype Task = Task(
    id: int,
    title: string,
    description: Option<string>,
    status: string,
    priority: string,
    userId: int)

  predicate HasKnownStatus(t: Task) {
    t.status == OPEN || t.status == IN_PROGRESS || t.status == DONE
  }

  /** `t => t.status === status` */
  function StatusIs(status: string): Task -> bool {
    (t: Task) => t.status == status
  }

  /** Tasks whose status is none of the three the board shows. */
  function StatusUnknown(): Task -> bool {
    (t: Task) => !HasKnownStatus(t)
  }

  /** Positions of `tasks` holding a task with the given status. */
  ghost function PositionsWithStatus(tasks: seq<Task>, status: string): set<int> {
    set i | 0 <= i < |tasks| && tasks[i].status == status
  }

  /** Counting the tasks with one status by filtering agrees with counting the
      positions that hold such a task. */
  lemma StatusCountIsPositions(tasks: seq<Task>, status: string)
    ensures |Filter(StatusIs(status), tasks)| == |PositionsWithStatus(tasks, status)|
  {
    FilterLengthIsIndexCount(StatusIs(status), tasks);
    assert MatchingIndices(StatusIs(status), tasks) == PositionsWithStatus(tasks, status);
  }

  /** Every task has exactly one of: OPEN, IN_PROGRESS, DONE, or some other
      status; so the four filters together account for the whole list. */
  lemma {:induction false} StatusPartition(tasks: seq<Task>)
    ensures |Filter(StatusIs(OPEN), tasks)| + |Filter(StatusIs(IN_PROGRESS), tasks)|
            + |Filter(StatusIs(DONE), tasks)| + |Filter(StatusUnknown(), tasks)| == |tasks|
    decreases |tasks|
  {
    if |tasks| > 0 {
      StatusPartition(tasks[1..]);
    }
  }

  /** The three known statuses cover a list exactly when no task has another one. */
  lemma KnownStatusesCover(tasks: seq<Task>)
    ensures (forall i :: 0 <= i < |tasks| ==> HasKnownStatus(tasks[i]))
            <==> |Filter(StatusIs(OPEN), tasks)| + |Filter(StatusIs(IN_PROGRESS), tasks)|
                 + |Filter(StatusIs(DONE), tasks)| == |tasks|
  {
    StatusPartition(tasks);
    FilterKeepsNone(StatusUnknown(), tasks);
  }
}
