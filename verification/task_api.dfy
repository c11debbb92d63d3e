/** The task API helpers that hold logic: the paging defaults of `getTasks`
    and the client-side statistics of `getTaskStats`. The HTTP calls
    themselves are not modelled; their responses are inputs. */
module TaskApi {
  import opened Base
  import opened Seqs
  import opened TaskModel

  const TASKS_PATH: string := "/tasks/user/"
  const DEFAULT_PAGE: int := 0
  const DEFAULT_PAGE_SIZE: int := 20
  /** The single page `getTaskStats` fetches. */
  const STATS_PAGE_SIZE: int := 100

  /** The GET request `getTasks` issues: path and paging parameters. */
  datatype TaskQuery = TaskQuery(path: string, page: int, size: int)

  /** `getTasks(userId, page = 0, size = 20)`: omitted arguments take the defaults. */
  function GetTasksQuery(userId: string, page: Option<int>, size: Option<int>): (q: TaskQuery)
    ensures page.None? ==> q.page == DEFAULT_PAGE
    ensures size.None? ==> q.size == DEFAULT_PAGE_SIZE
    ensures page.Some? ==> q.page == page.value
    ensures size.Some? ==> q.size == size.value
    ensures |q.path| == |TASKS_PATH| + |userId|
    ensures q.path[..|TASKS_PATH|] == TASKS_PATH && q.path[|TASKS_PATH|..] == userId
  {
    TaskQuery(TASKS_PATH + userId,
              if page.Some? then page.value else DEFAULT_PAGE,
              if size.Some? then size.value else DEFAULT_PAGE_SIZE)
  }

  /** The page envelope the list endpoint returns; either field may be missing. */
  datatype Page = Page(content: Option<seq<Task>>, totalElements: Option<int>)

  /** `data.content || []` */
  function Content(p: Page): (c: seq<Task>)
    ensures p.content.None? ==> c == []
    ensures p.content.Some? ==> c == p.content.value
  {
    if p.content.Some? then p.content.value else []
  }

  datatype TaskStats = TaskStats(total: int, open: nat, inProgress: nat, done: nat)

  /** The query `getTaskStats` sends: the first page of 100 tasks. */
  function StatsQuery(userId: string): (q: TaskQuery)
    ensures q.page == 0 && q.size == STATS_PAGE_SIZE
  {
    GetTasksQuery(userId, Some(0), Some(STATS_PAGE_SIZE))
  }

  /** `getTaskStats` given the page the query returned. `total` is the
      server's `totalElements` unless that is missing or 0, in which case it is
      the page length; each per-status figure counts the positions of the
      fetched page holding that exact status. */
  function Stats(p: Page): (s: TaskStats)
    ensures p.totalElements.Some? && p.totalElements.value != 0 ==> s.total == p.totalElements.value
    ensures p.totalElements.None? || p.totalElements.value == 0 ==> s.total == |Content(p)|
    ensures s.open == |PositionsWithStatus(Content(p), OPEN)|
    ensures s.inProgress == |PositionsWithStatus(Content(p), IN_PROGRESS)|
    ensures s.done == |PositionsWithStatus(Content(p), DONE)|
    ensures s.open + s.inProgress + s.done <= |Content(p)|
    ensures s.open + s.inProgress + s.done == |Content(p)|
            <==> forall i :: 0 <= i < |Content(p)| ==> HasKnownStatus(Content(p)[i])
  {
    var content := Content(p);
    StatusCountIsPositions(content, OPEN);
    StatusCountIsPositions(content, IN_PROGRESS);
    StatusCountIsPositions(content, DONE);
    StatusPartition(content);
    KnownStatusesCover(content);
    TaskStats(
      if p.totalElements.Some? && p.totalElements.value != 0 then p.totalElements.value else |content|,
      |Filter(StatusIs(OPEN), content)|,
      |Filter(StatusIs(IN_PROGRESS), content)|,
      |Filter(StatusIs(DONE), content)|)
  }

  /** The per-status figures see only the fetched page: two responses with the
      same page agree on them whatever `totalElements` says. */
  lemma StatsCountsIgnoreTotal(p: Page, q: Page)
    requires Content(p) == Content(q)
    ensures Stats(p).open == Stats(q).open
    ensures Stats(p).inProgress == Stats(q).inProgress
    ensures Stats(p).done == Stats(q).done
  {
  }

  /** When the user has more tasks than the page holds, the per-status figures
      fall short of `total` by at least the number of tasks left unfetched. */
  lemma StatsFallShortBeyondPage(p: Page)
    requires p.totalElements.Some? && p.totalElements.value > |Content(p)|
    ensures Stats(p).total - (Stats(p).open + Stats(p).inProgress + Stats(p).done)
            >= p.totalElements.value - |Content(p)| > 0
  {
  }
}
