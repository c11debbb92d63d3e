/** The Tasks page: the filter-and-search view, the three status columns, and
    the local list edits made once the API has answered. */
module TaskBoard {
  import opened Base
  import opened Seqs
  import opened Text
  import opened TaskModel
  import opened TaskApi
  import TaskForm

  const ALL: string := "ALL"
  const NOT_LOGGED_IN: string := "User not logged in"
  const LOAD_FAILED: string := "Failed to load tasks"
  const CREATE_FAILED: string := "Failed to create task"
  const UPDATE_FAILED: string := "Failed to update task"
  const DELETE_FAILED: string := "Failed to delete task"
  /** The page size the Tasks page loads with. */
  const LOAD_PAGE_SIZE: int := 50

  // ---------------------------------------------------------------------------
  // Filter and search

  predicate MatchesFilter(t: Task, filter: string) {
    filter == ALL || t.status == filter
  }

  /** The title, or the description when there is one, contains the query
      once both are lowered. */
  predicate MatchesSearch(t: Task, query: string) {
    || Includes(Lower(t.title), Lower(query))
    || (t.description.Some? && Includes(Lower(t.description.value), Lower(query)))
  }

  /** Reference reading of the search: the lowered query occurs at some
      position of the lowered title or of the lowered description. */
  ghost predicate MentionsQuery(t: Task, query: string) {
    || (exists i :: OccursAt(Lower(t.title), Lower(query), i))
    || (t.description.Some? && exists i :: OccursAt(Lower(t.description.value), Lower(query), i))
  }

  function Visible(filter: string, query: string): Task -> bool {
    (t: Task) => MatchesFilter(t, filter) && MatchesSearch(t, query)
  }

  /** `filteredTasks`: the tasks that pass the status filter and the search,
      as an order-preserving subsequence of `tasks`; a shown task appears as
      many times as it does in `tasks`. */
  function FilteredTasks(tasks: seq<Task>, filter: string, query: string): (r: seq<Task>)
    ensures forall t :: t in r <==> t in tasks && (filter == ALL || t.status == filter) && MentionsQuery(t, query)
    ensures forall t ::
              multiset(r)[t] == if (filter == ALL || t.status == filter) && MentionsQuery(t, query)
                                then multiset(tasks)[t] else 0
    ensures filter != ALL ==> forall i :: 0 <= i < |r| ==> r[i].status == filter
    ensures IsSubsequence(r, tasks)
  {
    FilterIsSubsequence(Visible(filter, query), tasks);
    FilterMultiplicities(Visible(filter, query), tasks);
    Filter(Visible(filter, query), tasks)
  }

  /** Filtering the filtered list again with the same settings changes nothing. */
  lemma FilteredTasksIdempotent(tasks: seq<Task>, filter: string, query: string)
    ensures FilteredTasks(FilteredTasks(tasks, filter, query), filter, query) == FilteredTasks(tasks, filter, query)
  {
    FilterIdempotent(Visible(filter, query), tasks);
  }

  /** With filter ALL and an empty search box every task is shown, in order. */
  lemma ShowAllShowsEverything(tasks: seq<Task>)
    ensures FilteredTasks(tasks, ALL, "") == tasks
  {
    forall i | 0 <= i < |tasks| ensures Visible(ALL, "")(tasks[i]) {
      IncludesEmpty(Lower(tasks[i].title));
    }
    FilterKeepsAll(Visible(ALL, ""), tasks);
  }

  /** The search ignores the case of the query. */
  lemma SearchIgnoresQueryCase(t: Task, filter: string, q1: string, q2: string)
    requires Lower(q1) == Lower(q2)
    ensures Visible(filter, q1)(t) == Visible(filter, q2)(t)
  {
  }

  /** Searching for the lowered query shows what searching for the query shows. */
  lemma SearchByLoweredQuery(tasks: seq<Task>, filter: string, query: string)
    ensures FilteredTasks(tasks, filter, Lower(query)) == FilteredTasks(tasks, filter, query)
  {
    LowerIdempotent(query);
    forall i | 0 <= i < |tasks|
      ensures Visible(filter, Lower(query))(tasks[i]) == Visible(filter, query)(tasks[i])
    {
      SearchIgnoresQueryCase(tasks[i], filter, Lower(query), query);
    }
    FilterCongruent(Visible(filter, Lower(query)), Visible(filter, query), tasks);
  }

  /** A task titled "Buy milk" and described "from store" is found by "MILK"
      and by "store" but not by "bread". */
  lemma SearchExample()
    ensures var t := Task(1, "Buy milk", Some("from store"), OPEN, "MEDIUM", 1);
            MatchesSearch(t, "MILK") && MatchesSearch(t, "store") && !MatchesSearch(t, "bread")
  {
    LowerExamples();
    assert OccursAt("buy milk", "milk", 4);
    assert OccursAt("from store", "store", 5);
    BreadNotInTitle();
    BreadNotInDescription();
  }

  lemma LowerExamples()
    ensures Lower("Buy milk") == "buy milk" && Lower("MILK") == "milk"
    ensures Lower("from store") == "from store" && Lower("store") == "store"
    ensures Lower("bread") == "bread"
  {
  }

  lemma BreadNotInTitle()
    ensures !Includes("buy milk", "bread")
  {
    assert "buy milk"[..5][1] != "bread"[1];
    assert "buy milk"[1..] == "uy milk";
    NotIncludedWithoutFirstChar("uy milk", "bread");
  }

  lemma BreadNotInDescription()
    ensures !Includes("from store", "bread")
  {
    NotIncludedWithoutFirstChar("from store", "bread");
  }

  // ---------------------------------------------------------------------------
  // Grouping

  /** `groupedTasks`: one column per known status. */
  datatype Columns = Columns(open: seq<Task>, inProgress: seq<Task>, done: seq<Task>)

  /** Each column holds exactly the filtered tasks with its status, in their
      filtered order; a task with any other status is in no column, and when
      there are none the columns share out the filtered list. */
  function Group(filtered: seq<Task>): (c: Columns)
    ensures forall t :: t in c.open <==> t in filtered && t.status == OPEN
    ensures forall t :: t in c.inProgress <==> t in filtered && t.status == IN_PROGRESS
    ensures forall t :: t in c.done <==> t in filtered && t.status == DONE
    ensures IsSubsequence(c.open, filtered) && IsSubsequence(c.inProgress, filtered)
            && IsSubsequence(c.done, filtered)
    ensures |c.open| + |c.inProgress| + |c.done| <= |filtered|
    ensures |c.open| + |c.inProgress| + |c.done| == |filtered|
            <==> forall i :: 0 <= i < |filtered| ==> HasKnownStatus(filtered[i])
  {
    FilterIsSubsequence(StatusIs(OPEN), filtered);
    FilterIsSubsequence(StatusIs(IN_PROGRESS), filtered);
    FilterIsSubsequence(StatusIs(DONE), filtered);
    StatusPartition(filtered);
    KnownStatusesCover(filtered);
    Columns(
      Filter(StatusIs(OPEN), filtered),
      Filter(StatusIs(IN_PROGRESS), filtered),
      Filter(StatusIs(DONE), filtered))
  }

  /** Each value occurs in its column as often as in the filtered list. */
  lemma GroupKeepsDuplicates(filtered: seq<Task>, t: Task)
    ensures t.status == OPEN ==> multiset(Group(filtered).open)[t] == multiset(filtered)[t]
    ensures t.status == IN_PROGRESS ==> multiset(Group(filtered).inProgress)[t] == multiset(filtered)[t]
    ensures t.status == DONE ==> multiset(Group(filtered).done)[t] == multiset(filtered)[t]
  {
    FilterMultiplicity(StatusIs(OPEN), filtered, t);
    FilterMultiplicity(StatusIs(IN_PROGRESS), filtered, t);
    FilterMultiplicity(StatusIs(DONE), filtered, t);
  }

  /** Unfiltered, the board's column sizes are the dashboard's statistics for
      the same page of tasks. */
  lemma ColumnsMatchStats(p: Page)
    ensures var c := Group(FilteredTasks(Content(p), ALL, ""));
            |c.open| == Stats(p).open && |c.inProgress| == Stats(p).inProgress && |c.done| == Stats(p).done
  {
    ShowAllShowsEverything(Content(p));
    StatusCountIsPositions(Content(p), OPEN);
    StatusCountIsPositions(Content(p), IN_PROGRESS);
    StatusCountIsPositions(Content(p), DONE);
  }

  // ---------------------------------------------------------------------------
  // Local list edits

  /** `tasks.map(t => t.id === id ? updated : t)` */
  function ReplaceById(tasks: seq<Task>, id: int, updated: Task): (r: seq<Task>)
    ensures |r| == |tasks|
    ensures forall i :: 0 <= i < |tasks| && tasks[i].id == id ==> r[i] == updated
    ensures forall i :: 0 <= i < |tasks| && tasks[i].id != id ==> r[i] == tasks[i]
  {
    if |tasks| == 0 then []
    else [if tasks[0].id == id then updated else tasks[0]] + ReplaceById(tasks[1..], id, updated)
  }

  function IdIsNot(id: int): Task -> bool {
    (t: Task) => t.id != id
  }

  function IdIs(id: int): Task -> bool {
    (t: Task) => t.id == id
  }

  /** `tasks.filter(t => t.id !== id)`: exactly the tasks with that id go,
      the rest stay in order. */
  function DeleteById(tasks: seq<Task>, id: int): (r: seq<Task>)
    ensures forall t :: t in r <==> t in tasks && t.id != id
    ensures forall t :: multiset(r)[t] == if t.id != id then multiset(tasks)[t] else 0
    ensures IsSubsequence(r, tasks)
    ensures |r| == |tasks| - |Filter(IdIs(id), tasks)|
  {
    FilterIsSubsequence(IdIsNot(id), tasks);
    FilterMultiplicities(IdIsNot(id), tasks);
    FilterComplement(IdIs(id), IdIsNot(id), tasks);
    Filter(IdIsNot(id), tasks)
  }

  /** Applying the same status change twice is applying it once. */
  lemma ReplaceByIdIdempotent(tasks: seq<Task>, id: int, updated: Task)
    ensures ReplaceById(ReplaceById(tasks, id, updated), id, updated) == ReplaceById(tasks, id, updated)
  {
  }

  /** Deleting a task after changing its status leaves what deleting it
      straight away leaves. */
  lemma {:induction false} DeleteAfterReplace(tasks: seq<Task>, id: int, updated: Task)
    requires updated.id == id
    ensures DeleteById(ReplaceById(tasks, id, updated), id) == DeleteById(tasks, id)
    decreases |tasks|
  {
    if |tasks| > 0 {
      DeleteAfterReplace(tasks[1..], id, updated);
      assert ReplaceById(tasks, id, updated)[1..] == ReplaceById(tasks[1..], id, updated);
    }
  }

  // ---------------------------------------------------------------------------
  // Page state and handlers

  /** The page's state: the task list, the error banner, the loading flag and
      whether the create dialog is open. */
  datatype TasksView = TasksView(tasks: seq<Task>, error: string, loading: bool, modalOpen: bool)

  /** The query `loadTasks` sends: page 0 of 50. */
  function LoadQuery(userId: string): (q: TaskQuery)
    ensures q.page == 0 && q.size == LOAD_PAGE_SIZE
  {
    GetTasksQuery(userId, Some(0), Some(LOAD_PAGE_SIZE))
  }

  /** `loadTasks`, given the stored user id and the settled fetch: without a
      user id no request is made; otherwise the list becomes the page's
      content (missing content reads as empty) or the error banner is set.
      Loading always ends. */
  function LoadTasks(v: TasksView, userId: Option<string>, fetched: Reply<Page>): (r: TasksView)
    ensures !Truthy(userId) ==> r == v.(error := NOT_LOGGED_IN, loading := false)
    ensures Truthy(userId) && fetched.Replied? ==>
      r == v.(tasks := Content(fetched.body), error := "", loading := false)
    ensures Truthy(userId) && fetched.Rejected? ==> r == v.(error := LOAD_FAILED, loading := false)
  {
    if !Truthy(userId) then v.(error := NOT_LOGGED_IN, loading := false)
    else
      match fetched
      case Replied(page) => v.(tasks := Content(page), error := "", loading := false)
      case Rejected(_) => v.(error := LOAD_FAILED, loading := false)
  }

  /** After a successful load the board shows the fetched page: with filter
      ALL and no query the list is the page's content, and the columns hold
      as many tasks as the statistics count for that page. Whatever list was
      showing before is gone. */
  lemma LoadShowsPage(v: TasksView, userId: Option<string>, p: Page)
    requires Truthy(userId)
    ensures var r := LoadTasks(v, userId, Replied(p));
            && FilteredTasks(r.tasks, ALL, "") == Content(p)
            && var c := Group(FilteredTasks(r.tasks, ALL, ""));
               |c.open| == Stats(p).open && |c.inProgress| == Stats(p).inProgress && |c.done| == Stats(p).done
  {
    ShowAllShowsEverything(Content(p));
    ColumnsMatchStats(p);
  }

  /** The body `handleCreate` posts: the form's fields with `userId` set to
      `Number(localStorage.getItem("userId"))`. */
  datatype NewTask = NewTask(title: string, description: string, priority: string, status: string, userId: JsNumber)

  function CreatePayload(form: TaskForm.FormData, storedUserId: Option<string>): (p: NewTask)
    ensures p.title == form.title && p.description == form.description
    ensures p.priority == form.priority && p.status == form.status
    ensures storedUserId.None? ==> p.userId == Num(0)
    ensures forall n: nat :: storedUserId == Some(NatToDecimal(n)) ==> p.userId == Num(n)
    ensures p.userId == ToNumber(storedUserId)
  {
    forall n: nat ensures ToNumber(Some(NatToDecimal(n))) == Num(n) {
      NumberOfDecimal(n);
    }
    NewTask(form.title, form.description, form.priority, form.status, ToNumber(storedUserId))
  }

  /** `handleCreate` once the POST settles: the created task goes first and
      the dialog closes; on failure only the error banner changes. */
  function AfterCreate(v: TasksView, created: Reply<Task>): (r: TasksView)
    ensures created.Replied? ==> r.tasks == [created.body] + v.tasks && |r.tasks| == |v.tasks| + 1
    ensures created.Replied? ==> !r.modalOpen && r.error == v.error && r.loading == v.loading
    ensures created.Rejected? ==> r == v.(error := CREATE_FAILED)
  {
    match created
    case Replied(t) => v.(tasks := [t] + v.tasks, modalOpen := false)
    case Rejected(_) => v.(error := CREATE_FAILED)
  }

  /** A freshly created task, deleted again, leaves the list as it was. */
  lemma DeleteUndoesCreate(v: TasksView, t: Task)
    requires forall u :: u in v.tasks ==> u.id != t.id
    ensures DeleteById(AfterCreate(v, Replied(t)).tasks, t.id) == v.tasks
  {
    FilterKeepsAll(IdIsNot(t.id), v.tasks);
    assert [t] + v.tasks == [t] + v.tasks[0..];
  }

  /** `handleStatusChange` once the PATCH settles: every task with that id is
      replaced by the server's record; on failure only the banner changes. */
  function AfterStatusChange(v: TasksView, id: int, updated: Reply<Task>): (r: TasksView)
    ensures updated.Replied? ==>
      && |r.tasks| == |v.tasks|
      && (forall i :: 0 <= i < |v.tasks| && v.tasks[i].id == id ==> r.tasks[i] == updated.body)
      && (forall i :: 0 <= i < |v.tasks| && v.tasks[i].id != id ==> r.tasks[i] == v.tasks[i])
      && r.error == v.error && r.modalOpen == v.modalOpen && r.loading == v.loading
    ensures updated.Rejected? ==> r == v.(error := UPDATE_FAILED)
  {
    match updated
    case Replied(u) => v.(tasks := ReplaceById(v.tasks, id, u))
    case Rejected(_) => v.(error := UPDATE_FAILED)
  }

  /** `handleDelete` once the DELETE settles: exactly the tasks with that id
      leave the list, every other task keeps all its copies; on failure only the banner changes. */
  function AfterDelete(v: TasksView, id: int, deleted: Reply<()>): (r: TasksView)
    ensures deleted.Replied? ==>
      && (forall t :: t in r.tasks <==> t in v.tasks && t.id != id)
      && (forall t :: multiset(r.tasks)[t] == if t.id != id then multiset(v.tasks)[t] else 0)
      && |r.tasks| == |v.tasks| - |Filter(IdIs(id), v.tasks)|
      && IsSubsequence(r.tasks, v.tasks)
      && r.error == v.error && r.modalOpen == v.modalOpen && r.loading == v.loading
    ensures deleted.Rejected? ==> r == v.(error := DELETE_FAILED)
  {
    match deleted
    case Replied(_) => v.(tasks := DeleteById(v.tasks, id))
    case Rejected(_) => v.(error := DELETE_FAILED)
  }
}
