/**
 * The task routes: the paginated, searchable, sortable listing of a column's tasks,
 * creation with its defaults, a partial update that always refreshes `updated_at`
 * (and may move the task to another column), and deletion.
 */
module Tasks {
  import opened Wrappers
  import opened Api
  import opened Schema
  import Zod
  import Query
  import Ordering
  import Like
  import Pagination

  datatype TaskView = TaskView(task: Task, creatorName: string)

  /**
   * The query string of `GET /columns/:columnId/tasks`; `page` and `limit` are what
   * `parseInt` made of them, `None` standing for `NaN`.
   */
  datatype ListQuery = ListQuery(search: Option<string>, page: Option<int>, limit: Option<int>, sort: Option<string>)

  datatype PageInfo = PageInfo(page: int, limit: int, total: nat, totalPages: int)
  datatype TaskPage = TaskPage(tasks: seq<TaskView>, pagination: PageInfo)

  const ValidSorts: seq<string> := ["created_at", "priority", "updated_at"]
  const Priorities: seq<string> := ["low", "medium", "high"]

  /** `(sort || 'created_at')`, then the whitelist: anything else sorts by `created_at`. */
  function SortColumnOf(sort: Option<string>): (r: string)
    ensures r in ValidSorts
    ensures sort.Some? && sort.value in ValidSorts ==> r == sort.value
    ensures sort.None? || sort.value !in ValidSorts ==> r == "created_at"
  {
    if sort.Some? && sort.value in ValidSorts then sort.value else "created_at"
  }

  /** The sort key of `ORDER BY t.<column>`; timestamps compare as numbers, priority as text. */
  function SortKey(x: Task, column: string): Ordering.Key {
    if column == "priority" then Ordering.Text(x.priority)
    else if column == "updated_at" then Ordering.Num(x.updatedAt)
    else Ordering.Num(x.createdAt)
  }

  function TaskRank(column: string): Task -> Ordering.Rank {
    (x: Task) => (SortKey(x, column), x.id)
  }

  /**
   * `t.title LIKE '%s%' OR t.description LIKE '%s%'`; a NULL description matches nothing.
   * An empty search adds no condition.
   */
  predicate MatchesSearch(x: Task, search: string) {
    || search == ""
    || Like.Like("%" + search + "%", x.title)
    || (x.description.Some? && Like.Like("%" + search + "%", x.description.value))
  }

  /** `FROM tasks WHERE column_id = ? [AND <search>]`, shared by the page query and the count query. */
  function Matching(t: Tables, columnId: int, search: string): (r: seq<Task>)
    ensures forall x :: x in r ==> x.columnId == columnId && MatchesSearch(x, search) && x in t.tasks.Values
  {
    Query.Select(t.tasks, t.taskSeq, Filter(columnId, search))
  }

  /** `WHERE t.column_id = ? [AND <search>]`. */
  function Filter(columnId: int, search: string): Task -> bool {
    (x: Task) => x.columnId == columnId && MatchesSearch(x, search)
  }

  /** `JOIN users u ON t.created_by = u.id`: the key a task joins on. */
  function Creator(x: Task): int {
    x.createdBy
  }

  /** The rows the count query counts. */
  function MatchingIds(t: Tables, columnId: int, search: string): set<int> {
    set k | k in t.tasks && t.tasks[k].columnId == columnId && MatchesSearch(t.tasks[k], search)
  }

  /** The matching tasks joined with their creators and ordered `DESC`, before `LIMIT`/`OFFSET`. */
  function Listing(t: Tables, columnId: int, search: string, column: string): (r: seq<TaskView>)
    ensures forall i :: 0 <= i < |r| ==>
      && r[i].task in Matching(t, columnId, search)
      && r[i].task.createdBy in t.users && r[i].creatorName == t.users[r[i].task.createdBy].name
  {
    var sorted := Ordering.SortBy(Matching(t, columnId, search), TaskRank(column), true);
    Ordering.SortByMembers(Matching(t, columnId, search), TaskRank(column), true);
    var joined := Query.Join(sorted, Creator, t.users);
    seq(|joined|, i requires 0 <= i < |joined| => TaskView(joined[i].0, joined[i].1.name))
  }

  /** `GET /columns/:columnId/tasks`: one page of the listing and the pagination block. */
  function ListTasks(t: Tables, columnId: int, q: ListQuery): (r: TaskPage)
    ensures r.pagination.page == Pagination.PageOf(q.page) && r.pagination.limit == Pagination.LimitOf(q.limit)
    ensures r.pagination.limit > 0 ==> |r.tasks| <= r.pagination.limit
    ensures r.pagination.total == |Matching(t, columnId, q.search.GetOr(""))|
    ensures r.pagination.totalPages == Pagination.TotalPages(r.pagination.total, r.pagination.limit)
  {
    var search := q.search.GetOr("");
    var page := Pagination.PageOf(q.page);
    var limit := Pagination.LimitOf(q.limit);
    var all := Listing(t, columnId, search, SortColumnOf(q.sort));
    var total := |Matching(t, columnId, search)|;
    TaskPage(Query.Window(all, Pagination.Offset(page, limit), limit),
             PageInfo(page, limit, total, Pagination.TotalPages(total, limit)))
  }

  /** Every listed task is in the requested column, passes the search and is a stored row. */
  lemma ListTasksContents(t: Tables, columnId: int, q: ListQuery)
    ensures var r := ListTasks(t, columnId, q);
      forall i :: 0 <= i < |r.tasks| ==>
        && r.tasks[i].task.columnId == columnId && MatchesSearch(r.tasks[i].task, q.search.GetOr(""))
        && r.tasks[i].task in t.tasks.Values
  {
    var search := q.search.GetOr("");
    var all := Listing(t, columnId, search, SortColumnOf(q.sort));
    var tasks := ListTasks(t, columnId, q).tasks;
    assert tasks == Query.Window(all, Pagination.Offset(Pagination.PageOf(q.page), Pagination.LimitOf(q.limit)), Pagination.LimitOf(q.limit));
    assert forall v :: v in tasks ==> v in all;
    ListingMembers(t, columnId, search, SortColumnOf(q.sort));
  }

  /** Every view of the listing, wherever it stands, is a matching task with its creator's name. */
  lemma ListingMembers(t: Tables, columnId: int, search: string, column: string)
    ensures forall v :: v in Listing(t, columnId, search, column) ==> v.task in Matching(t, columnId, search)
  {
    var r := Listing(t, columnId, search, column);
    forall v | v in r ensures v.task in Matching(t, columnId, search) {
      var i :| 0 <= i < |r| && r[i] == v;
    }
  }

  /** `total` counts every matching task of the column, not only those on the page. */
  lemma ListTasksTotal(t: Tables, columnId: int, q: ListQuery)
    requires RowIdsInRange(t)
    ensures ListTasks(t, columnId, q).pagination.total == |MatchingIds(t, columnId, q.search.GetOr(""))|
  {
    MatchingCount(t, columnId, q.search.GetOr(""));
  }

  /** In a store whose rowids are in range, `COUNT(*)` counts every matching task of the column. */
  lemma MatchingCount(t: Tables, columnId: int, search: string)
    ensures RowIdsInRange(t) ==> |Matching(t, columnId, search)| == |MatchingIds(t, columnId, search)|
  {
    var p := Filter(columnId, search);
    Query.SelectCount(t.tasks, t.taskSeq, p);
    if RowIdsInRange(t) {
      assert Query.SelectedKeys(t.tasks, t.taskSeq, p) == MatchingIds(t, columnId, search);
    }
  }

  /** With every creator present, the listing is the sorted matching rows, one view each. */
  lemma ListingRows(t: Tables, columnId: int, search: string, column: string)
    requires Consistent(t)
    ensures var sorted := Ordering.SortBy(Matching(t, columnId, search), TaskRank(column), true);
      var r := Listing(t, columnId, search, column);
      |r| == |sorted| && forall i :: 0 <= i < |r| ==> r[i].task == sorted[i]
  {
    var sorted := Ordering.SortBy(Matching(t, columnId, search), TaskRank(column), true);
    Ordering.SortByMembers(Matching(t, columnId, search), TaskRank(column), true);
    Query.JoinAllResolve(sorted, Creator, t.users);
  }

  /**
   * The count and the listing use the same filter: before `LIMIT`/`OFFSET` the listing
   * has exactly `total` rows.
   */
  lemma ListingLengthIsTotal(t: Tables, columnId: int, q: ListQuery)
    requires Consistent(t)
    ensures |Listing(t, columnId, q.search.GetOr(""), SortColumnOf(q.sort))| == ListTasks(t, columnId, q).pagination.total
  {
    var search := q.search.GetOr("");
    var column := SortColumnOf(q.sort);
    var sorted := Ordering.SortBy(Matching(t, columnId, search), TaskRank(column), true);
    assert |sorted| == |multiset(sorted)| == |multiset(Matching(t, columnId, search))|;
    ListingRows(t, columnId, search, column);
  }

  /** The views are in `ORDER BY <column> DESC` order. */
  ghost predicate ViewsSorted(r: seq<TaskView>, column: string) {
    forall i, j :: 0 <= i < j < |r| ==> Ordering.NotAfter(TaskRank(column)(r[i].task), TaskRank(column)(r[j].task), true)
  }

  lemma ListingSorted(t: Tables, columnId: int, search: string, column: string)
    requires Consistent(t)
    ensures ViewsSorted(Listing(t, columnId, search, column), column)
  {
    ListingRows(t, columnId, search, column);
    Ordering.SortBySorted(Matching(t, columnId, search), TaskRank(column), true);
  }

  lemma SliceSorted(r: seq<TaskView>, column: string, a: int, b: int)
    requires ViewsSorted(r, column) && 0 <= a <= b <= |r|
    ensures ViewsSorted(r[a..b], column)
  {
    forall i, j | 0 <= i < j < b - a
      ensures Ordering.NotAfter(TaskRank(column)(r[a..b][i].task), TaskRank(column)(r[a..b][j].task), true)
    {
      assert r[a..b][i] == r[a + i] && r[a..b][j] == r[a + j];
    }
  }

  /** Every page is ordered by the chosen key, descending. */
  lemma ListTasksSorted(t: Tables, columnId: int, q: ListQuery)
    requires Consistent(t)
    ensures ViewsSorted(ListTasks(t, columnId, q).tasks, SortColumnOf(q.sort))
  {
    var search, column := q.search.GetOr(""), SortColumnOf(q.sort);
    var page, limit := Pagination.PageOf(q.page), Pagination.LimitOf(q.limit);
    var all := Listing(t, columnId, search, column);
    ListingSorted(t, columnId, search, column);
    var offset := Pagination.Offset(page, limit);
    assert ListTasks(t, columnId, q).tasks == Query.Window(all, offset, limit);
    SliceSorted(all, column, Query.WindowStart(all, offset), Query.WindowEnd(all, offset, limit));
  }

  /** The position of a priority in a listing by priority: medium first, then low, then high. */
  function PriorityPlace(p: string): nat {
    if p == "medium" then 0 else if p == "low" then 1 else 2
  }

  /**
   * `ORDER BY t.priority DESC` compares the words as text, so among the three priorities
   * the order is medium, low, high: not the order of urgency.
   */
  lemma ListByPriorityOrder(t: Tables, columnId: int, q: ListQuery, i: int, j: int)
    requires Consistent(t) && SortColumnOf(q.sort) == "priority"
    requires 0 <= i < j < |ListTasks(t, columnId, q).tasks|
    requires ListTasks(t, columnId, q).tasks[i].task.priority in Priorities
    requires ListTasks(t, columnId, q).tasks[j].task.priority in Priorities
    ensures PriorityPlace(ListTasks(t, columnId, q).tasks[i].task.priority) <=
            PriorityPlace(ListTasks(t, columnId, q).tasks[j].task.priority)
  {
    var r := ListTasks(t, columnId, q).tasks;
    ListTasksSorted(t, columnId, q);
    PriorityPlaceFollowsRank(r[i].task, r[j].task);
  }

  /** A task ranked no later than another by `priority DESC` has a priority placed no later. */
  lemma PriorityPlaceFollowsRank(a: Task, b: Task)
    requires a.priority in Priorities && b.priority in Priorities
    requires Ordering.NotAfter(TaskRank("priority")(a), TaskRank("priority")(b), true)
    ensures PriorityPlace(a.priority) <= PriorityPlace(b.priority)
  {
    Ordering.PriorityTextOrder(a.id, b.id, b.id);
    Ordering.PriorityTextOrder(b.id, a.id, a.id);
    Ordering.PriorityTextOrder(a.id, a.id, b.id);
    Ordering.PriorityTextOrder(b.id, b.id, a.id);
  }

  /** An empty search filters only by column. */
  lemma EmptySearchNoFilter(t: Tables, columnId: int)
    ensures Matching(t, columnId, "") == Query.Select(t.tasks, t.taskSeq, (x: Task) => x.columnId == columnId)
  {
    Query.SelectSameFilter(t.tasks, t.taskSeq,
      Filter(columnId, ""),
      (x: Task) => x.columnId == columnId);
  }

  /** A search without `%` or `_` keeps the tasks whose title or description contains it, ignoring ASCII case. */
  lemma LiteralSearchIsContainment(x: Task, search: string)
    requires search != "" && Like.Literal(search)
    ensures MatchesSearch(x, search) <==>
      Like.ContainsFolded(x.title, search) ||
      (x.description.Some? && Like.ContainsFolded(x.description.value, search))
  {
    Like.SearchPatternIsContainment(search, x.title);
    if x.description.Some? {
      Like.SearchPatternIsContainment(search, x.description.value);
    }
  }

  /** The pages 1, 2, ... of one listing, one after the other. */
  function PagesUpTo(t: Tables, columnId: int, search: Option<string>, sort: Option<string>, limit: int, n: nat): seq<TaskView> {
    if n == 0 then []
    else PagesUpTo(t, columnId, search, sort, limit, n - 1) + ListTasks(t, columnId, ListQuery(search, Some(n), Some(limit), sort)).tasks
  }

  /** For a positive limit, pages 1..totalPages hold every matching task exactly once, in listing order. */
  lemma {:induction false} PagesPartitionListing(t: Tables, columnId: int, search: Option<string>, sort: Option<string>, limit: int)
    requires Consistent(t) && limit > 0
    ensures var q := ListQuery(search, Some(1), Some(limit), sort);
      var n := ListTasks(t, columnId, q).pagination.totalPages;
      n >= 0 &&
      PagesUpTo(t, columnId, search, sort, limit, n) == Listing(t, columnId, search.GetOr(""), SortColumnOf(sort))
  {
    var all := Listing(t, columnId, search.GetOr(""), SortColumnOf(sort));
    var q := ListQuery(search, Some(1), Some(limit), sort);
    ListingLengthIsTotal(t, columnId, q);
    Pagination.TotalPagesBounds(|all|, limit);
    var n := Pagination.TotalPages(|all|, limit);
    PagesUpToIsPages(t, columnId, search, sort, limit, n);
    Pagination.PagesCoverListing(all, limit);
  }

  lemma {:induction false} PagesUpToIsPages(t: Tables, columnId: int, search: Option<string>, sort: Option<string>, limit: int, n: nat)
    requires limit > 0
    ensures PagesUpTo(t, columnId, search, sort, limit, n) ==
      Pagination.Pages(Listing(t, columnId, search.GetOr(""), SortColumnOf(sort)), limit, n)
  {
    if n > 0 {
      var all := Listing(t, columnId, search.GetOr(""), SortColumnOf(sort));
      var page := ListTasks(t, columnId, ListQuery(search, Some(n), Some(limit), sort)).tasks;
      PagesUpToIsPages(t, columnId, search, sort, limit, n - 1);
      PageIsWindow(t, columnId, search, sort, limit, n);
      assert PagesUpTo(t, columnId, search, sort, limit, n) == PagesUpTo(t, columnId, search, sort, limit, n - 1) + page;
      assert Pagination.Pages(all, limit, n) == Pagination.Pages(all, limit, n - 1) + page;
    }
  }

  /** Page n of the listing is the window of `limit` rows from offset `(n - 1) * limit`. */
  lemma PageIsWindow(t: Tables, columnId: int, search: Option<string>, sort: Option<string>, limit: int, n: nat)
    requires limit > 0 && n > 0
    ensures ListTasks(t, columnId, ListQuery(search, Some(n), Some(limit), sort)).tasks ==
      Query.Window(Listing(t, columnId, search.GetOr(""), SortColumnOf(sort)), Pagination.Offset(n, limit), limit)
  {
    var q := ListQuery(search, Some(n), Some(limit), sort);
    assert Pagination.PageOf(q.page) == n && Pagination.LimitOf(q.limit) == limit;
  }

  datatype CreateTaskBody = CreateTaskBody(title: string, description: Option<string>, priority: Option<string>)
  datatype UpdateTaskBody = UpdateTaskBody(title: Option<string>, description: Option<string>,
                                           priority: Option<string>, columnId: Option<int>)

  /** An optional string field: `None` when it is `undefined`. */
  function OptionalText(v: Zod.Value): Option<string> {
    if v.Text? then Some(v.s) else None
  }

  /** `createTaskSchema`: a non-empty title, an optional description, an optional priority of the three. */
  function ParseCreateTask(body: Zod.Body): (r: Result<CreateTaskBody>)
    ensures r.Ok? <==>
      && Zod.Get(body, "title").Text? && |Zod.Get(body, "title").s| >= 1
      && (Zod.Get(body, "description").Undefined? || Zod.Get(body, "description").Text?)
      && (Zod.Get(body, "priority").Undefined? ||
          (Zod.Get(body, "priority").Text? && Zod.Get(body, "priority").s in Priorities))
    ensures r.Ok? ==>
      && r.value.title == Zod.Get(body, "title").s
      && (r.value.description.Some? <==> Zod.Get(body, "description").Text?)
      && (r.value.description.Some? ==> r.value.description.value == Zod.Get(body, "description").s)
      && (r.value.priority.Some? <==> Zod.Get(body, "priority").Text?)
      && (r.value.priority.Some? ==> r.value.priority.value == Zod.Get(body, "priority").s && r.value.priority.value in Priorities)
    ensures r.Err? ==>
      && r.error.code == BadRequest && r.error.message == "Validation failed"
      && 1 <= |r.error.details| <= 3
      && forall i :: 0 <= i < |r.error.details| ==> r.error.details[i] in ["title", "description", "priority"]
    ensures r.Err? ==> ("title" in r.error.details <==> !(Zod.Get(body, "title").Text? && |Zod.Get(body, "title").s| >= 1))
    ensures r.Err? ==> ("description" in r.error.details <==> !Zod.Get(body, "description").Undefined? && !(Zod.Get(body, "description").Text?))
    ensures r.Err? ==> ("priority" in r.error.details <==> !Zod.Get(body, "priority").Undefined? && !(Zod.Get(body, "priority").Text? && Zod.Get(body, "priority").s in Priorities))
  {
    var title, description, priority := Zod.Get(body, "title"), Zod.Get(body, "description"), Zod.Get(body, "priority");
    var nt, nd := Zod.StringMinIssues(title, 1), Zod.Optional(description, Zod.StringIssues(description));
    var np := Zod.Optional(priority, Zod.EnumIssues(priority, Priorities));
    var issues := Zod.Issues("title", nt) + Zod.Issues("description", nd) + Zod.Issues("priority", np);
    assert forall x :: x in issues <==> (nt > 0 && x == "title") || (nd > 0 && x == "description") || (np > 0 && x == "priority");
    if issues != [] then Err(ValidationFailed(issues))
    else Ok(CreateTaskBody(title.s, OptionalText(description), OptionalText(priority)))
  }

  /** The issues `updateTaskSchema` raises, one entry per issue, each naming its field. */
  function UpdateTaskIssues(body: Zod.Body): (issues: seq<string>)
    ensures |issues| <= 4
    ensures forall i :: 0 <= i < |issues| ==> issues[i] in ["title", "description", "priority", "column_id"]
    ensures "title" in issues <==> !Zod.Get(body, "title").Undefined? && !(Zod.Get(body, "title").Text? && |Zod.Get(body, "title").s| >= 1)
    ensures "description" in issues <==> !Zod.Get(body, "description").Undefined? && !Zod.Get(body, "description").Text?
    ensures "priority" in issues <==> !Zod.Get(body, "priority").Undefined? && !(Zod.Get(body, "priority").Text? && Zod.Get(body, "priority").s in Priorities)
    ensures "column_id" in issues <==> !Zod.Get(body, "column_id").Undefined? && !(Zod.Get(body, "column_id").Number? && Zod.IsInteger(Zod.Get(body, "column_id").x))
  {
    TextIssues(body) + MoveIssues(body)
  }

  /** The issues of the optional `title` and `description`. */
  function TextIssues(body: Zod.Body): (issues: seq<string>)
    ensures |issues| <= 2
    ensures forall i :: 0 <= i < |issues| ==> issues[i] in ["title", "description"]
    ensures "title" in issues <==> !Zod.Get(body, "title").Undefined? && !(Zod.Get(body, "title").Text? && |Zod.Get(body, "title").s| >= 1)
    ensures "description" in issues <==> !Zod.Get(body, "description").Undefined? && !Zod.Get(body, "description").Text?
  {
    var title, description := Zod.Get(body, "title"), Zod.Get(body, "description");
    Zod.Issues("title", Zod.Optional(title, Zod.StringMinIssues(title, 1)))
      + Zod.Issues("description", Zod.Optional(description, Zod.StringIssues(description)))
  }

  /** The issues of the optional `priority` and `column_id`. */
  function MoveIssues(body: Zod.Body): (issues: seq<string>)
    ensures |issues| <= 2
    ensures forall i :: 0 <= i < |issues| ==> issues[i] in ["priority", "column_id"]
    ensures "priority" in issues <==> !Zod.Get(body, "priority").Undefined? && !(Zod.Get(body, "priority").Text? && Zod.Get(body, "priority").s in Priorities)
    ensures "column_id" in issues <==> !Zod.Get(body, "column_id").Undefined? && !(Zod.Get(body, "column_id").Number? && Zod.IsInteger(Zod.Get(body, "column_id").x))
  {
    var priority, columnId := Zod.Get(body, "priority"), Zod.Get(body, "column_id");
    Zod.Issues("priority", Zod.Optional(priority, Zod.EnumIssues(priority, Priorities)))
      + Zod.Issues("column_id", Zod.Optional(columnId, Zod.IntIssues(columnId)))
  }

  /** `updateTaskSchema`: every field optional; `column_id` an integer when given. */
  function ParseUpdateTask(body: Zod.Body): (r: Result<UpdateTaskBody>)
    ensures r.Ok? <==>
      && (Zod.Get(body, "title").Undefined? ||
          (Zod.Get(body, "title").Text? && |Zod.Get(body, "title").s| >= 1))
      && (Zod.Get(body, "description").Undefined? || Zod.Get(body, "description").Text?)
      && (Zod.Get(body, "priority").Undefined? ||
          (Zod.Get(body, "priority").Text? && Zod.Get(body, "priority").s in Priorities))
      && (Zod.Get(body, "column_id").Undefined? ||
          (Zod.Get(body, "column_id").Number? && Zod.IsInteger(Zod.Get(body, "column_id").x)))
    ensures r.Ok? ==>
      && (r.value.title.Some? <==> Zod.Get(body, "title").Text?)
      && (r.value.title.Some? ==> r.value.title.value == Zod.Get(body, "title").s)
      && (r.value.description.Some? <==> Zod.Get(body, "description").Text?)
      && (r.value.description.Some? ==> r.value.description.value == Zod.Get(body, "description").s)
      && (r.value.priority.Some? <==> Zod.Get(body, "priority").Text?)
      && (r.value.priority.Some? ==> r.value.priority.value == Zod.Get(body, "priority").s)
      && (r.value.columnId.Some? <==> Zod.Get(body, "column_id").Number?)
      && (r.value.columnId.Some? ==> r.value.columnId.value as real == Zod.Get(body, "column_id").x)
    ensures r.Err? ==>
      && r.error.code == BadRequest && r.error.message == "Validation failed"
      && 1 <= |r.error.details| <= 4
      && forall i :: 0 <= i < |r.error.details| ==> r.error.details[i] in ["title", "description", "priority", "column_id"]
    ensures r.Err? ==> ("title" in r.error.details <==> !Zod.Get(body, "title").Undefined? && !(Zod.Get(body, "title").Text? && |Zod.Get(body, "title").s| >= 1))
    ensures r.Err? ==> ("description" in r.error.details <==> !Zod.Get(body, "description").Undefined? && !(Zod.Get(body, "description").Text?))
    ensures r.Err? ==> ("priority" in r.error.details <==> !Zod.Get(body, "priority").Undefined? && !(Zod.Get(body, "priority").Text? && Zod.Get(body, "priority").s in Priorities))
    ensures r.Err? ==> ("column_id" in r.error.details <==> !Zod.Get(body, "column_id").Undefined? && !(Zod.Get(body, "column_id").Number? && Zod.IsInteger(Zod.Get(body, "column_id").x)))
  {
    var title, description := Zod.Get(body, "title"), Zod.Get(body, "description");
    var priority, columnId := Zod.Get(body, "priority"), Zod.Get(body, "column_id");
    var issues := UpdateTaskIssues(body);
    if issues != [] then Err(ValidationFailed(issues))
    else
      Ok(UpdateTaskBody(OptionalText(title), OptionalText(description), OptionalText(priority),
                        if columnId.Number? then Some(Zod.ToInt(columnId.x)) else None))
  }

  /** `body.description || null`: an absent or empty description is stored as NULL. */
  function StoredDescription(d: Option<string>): (r: Option<string>)
    ensures r.Some? <==> d.Some? && d.value != ""
    ensures r.Some? ==> r == d
  {
    if d.Some? && d.value != "" then d else None
  }

  /** `body.priority || 'medium'`. */
  function StoredPriority(p: Option<string>): (r: string)
    ensures p.None? ==> r == DefaultPriority
    ensures p.Some? && p.value != "" ==> r == p.value
    ensures p == Some("") ==> r == DefaultPriority
  {
    if p.Some? && p.value != "" then p.value else DefaultPriority
  }

  /**
   * `POST /columns/:columnId/tasks`: validation, then one insert made by the authenticated
   * user. A missing column (or a creator no longer in the store) fails a foreign key and
   * surfaces as the 500 answer.
   */
  method CreateTask(db: Database, columnId: int, userId: int, body: Zod.Body, now: Timestamp) returns (r: Result<TaskView>)
    requires db.Valid()
    modifies db
    ensures db.Valid()
    ensures ParseCreateTask(body).Err? ==> r == Err(ParseCreateTask(body).error) && db.State() == old(db.State())
    ensures ParseCreateTask(body).Ok? && (columnId !in old(db.columns) || userId !in old(db.users)) ==>
      r == Err(InternalError) && db.State() == old(db.State())
    ensures ParseCreateTask(body).Ok? && columnId in old(db.columns) && userId in old(db.users) ==>
      var b := ParseCreateTask(body).value;
      var id := old(db.taskSeq) + 1;
      var row := Task(id, columnId, b.title, StoredDescription(b.description), StoredPriority(b.priority), userId, now, now);
      && r == Ok(TaskView(row, old(db.users)[userId].name))
      && db.State() == old(db.State()).(tasks := old(db.tasks)[id := row], taskSeq := id)
  {
    var parsed := ParseCreateTask(body);
    if parsed.Err? {
      return Err(parsed.error);
    }
    var b := parsed.value;
    var outcome := db.InsertTask(columnId, b.title, StoredDescription(b.description), Some(StoredPriority(b.priority)), userId, now);
    if outcome.Rejected? {
      return Err(InternalError);
    }
    var row := db.tasks[outcome.id];
    r := Ok(TaskView(row, db.users[row.createdBy].name));
  }

  /**
   * The task after `PATCH`: `updated_at` is always the current time, each supplied field
   * is replaced, and a supplied description is stored as given (even when empty).
   */
  function Patched(x: Task, b: UpdateTaskBody, now: Timestamp): Task {
    x.(updatedAt := now, title := b.title.GetOr(x.title),
       description := if b.description.Some? then b.description else x.description,
       priority := b.priority.GetOr(x.priority), columnId := b.columnId.GetOr(x.columnId))
  }

  /** A patch refreshes `updated_at`, changes only what it supplies and leaves id, creator and creation time alone. */
  lemma PatchedChangesOnlySupplied(x: Task, b: UpdateTaskBody, now: Timestamp)
    ensures var y := Patched(x, b, now);
      && y.updatedAt == now
      && y.id == x.id && y.createdBy == x.createdBy && y.createdAt == x.createdAt
      && (b.title.None? ==> y.title == x.title) && (b.title.Some? ==> y.title == b.title.value)
      && (b.description.None? ==> y.description == x.description)
      && (b.description.Some? ==> y.description == b.description)
      && (b.priority.None? ==> y.priority == x.priority) && (b.priority.Some? ==> y.priority == b.priority.value)
      && (b.columnId.None? ==> y.columnId == x.columnId) && (b.columnId.Some? ==> y.columnId == b.columnId.value)
    ensures Patched(x, UpdateTaskBody(None, None, None, None), now) == x.(updatedAt := now)
  {
  }

  /** The assignments the handler collects, applied in order, give the patched task. */
  lemma AssignmentsPatch(x: Task, b: UpdateTaskBody, now: Timestamp, updates: seq<TaskSet>)
    requires updates ==
      [TouchUpdatedAt]
      + (if b.title.Some? then [SetTaskTitle(b.title.value)] else [])
      + (if b.description.Some? then [SetDescription(b.description.value)] else [])
      + (if b.priority.Some? then [SetPriority(b.priority.value)] else [])
      + (if b.columnId.Some? then [SetColumnId(b.columnId.value)] else [])
    ensures ApplyTaskSets(x, updates, now) == Patched(x, b, now)
  {
    var u1 := [TouchUpdatedAt];
    var u2 := u1 + (if b.title.Some? then [SetTaskTitle(b.title.value)] else []);
    var u3 := u2 + (if b.description.Some? then [SetDescription(b.description.value)] else []);
    var u4 := u3 + (if b.priority.Some? then [SetPriority(b.priority.value)] else []);
    assert updates == u4 + (if b.columnId.Some? then [SetColumnId(b.columnId.value)] else []);
    var y1 := x.(updatedAt := now);
    var y2 := y1.(title := b.title.GetOr(x.title));
    var y3 := y2.(description := if b.description.Some? then b.description else x.description);
    var y4 := y3.(priority := b.priority.GetOr(x.priority));
    assert u1[..0] == [];
    assert ApplyTaskSets(x, u1, now) == y1;
    assert ApplyTaskSets(x, u2, now) == y2 by {
      if b.title.Some? { assert u2[..|u2| - 1] == u1; } else { assert u2 == u1; }
    }
    assert ApplyTaskSets(x, u3, now) == y3 by {
      if b.description.Some? { assert u3[..|u3| - 1] == u2; } else { assert u3 == u2; }
    }
    assert ApplyTaskSets(x, u4, now) == y4 by {
      if b.priority.Some? { assert u4[..|u4| - 1] == u3; } else { assert u4 == u3; }
    }
    if b.columnId.Some? { assert updates[..|updates| - 1] == u4; } else { assert updates == u4; }
  }

  /** The update would point the task at a column that does not exist. */
  lemma AssignmentsMove(t: Tables, b: UpdateTaskBody, updates: seq<TaskSet>)
    requires updates ==
      [TouchUpdatedAt]
      + (if b.title.Some? then [SetTaskTitle(b.title.value)] else [])
      + (if b.description.Some? then [SetDescription(b.description.value)] else [])
      + (if b.priority.Some? then [SetPriority(b.priority.value)] else [])
      + (if b.columnId.Some? then [SetColumnId(b.columnId.value)] else [])
    ensures MovesToMissingColumn(t, updates) <==> b.columnId.Some? && b.columnId.value !in t.columns
  {
    if b.columnId.Some? {
      assert updates[|updates| - 1] == SetColumnId(b.columnId.value);
    }
  }

  /**
   * `PATCH /tasks/:taskId`: validation, then the existence check, then one `UPDATE` that
   * always sets `updated_at` and each supplied field. A `column_id` naming no column fails
   * the foreign key and surfaces as the 500 answer, with nothing written.
   */
  method UpdateTask(db: Database, taskId: int, body: Zod.Body, now: Timestamp) returns (r: Result<TaskView>)
    requires db.Valid()
    modifies db
    ensures db.Valid()
    ensures ParseUpdateTask(body).Err? ==> r == Err(ParseUpdateTask(body).error) && db.State() == old(db.State())
    ensures ParseUpdateTask(body).Ok? && taskId !in old(db.tasks) ==>
      r == Err(TaskNotFound) && db.State() == old(db.State())
    ensures ParseUpdateTask(body).Ok? && taskId in old(db.tasks) &&
            ParseUpdateTask(body).value.columnId.Some? && ParseUpdateTask(body).value.columnId.value !in old(db.columns) ==>
      r == Err(InternalError) && db.State() == old(db.State())
    ensures ParseUpdateTask(body).Ok? && taskId in old(db.tasks) &&
            (ParseUpdateTask(body).value.columnId.None? || ParseUpdateTask(body).value.columnId.value in old(db.columns)) ==>
      var row := Patched(old(db.tasks)[taskId], ParseUpdateTask(body).value, now);
      && r == Ok(TaskView(row, old(db.users)[row.createdBy].name))
      && db.State() == old(db.State()).(tasks := old(db.tasks)[taskId := row])
  {
    var parsed := ParseUpdateTask(body);
    if parsed.Err? {
      return Err(parsed.error);
    }
    var b := parsed.value;
    if taskId !in db.tasks {
      return Err(TaskNotFound);
    }
    var updates: seq<TaskSet> := [TouchUpdatedAt];
    ghost var u := updates;
    if b.title.Some? {
      updates := updates + [SetTaskTitle(b.title.value)];
    }
    u := u + (if b.title.Some? then [SetTaskTitle(b.title.value)] else []);
    assert updates == u;
    if b.description.Some? {
      updates := updates + [SetDescription(b.description.value)];
    }
    u := u + (if b.description.Some? then [SetDescription(b.description.value)] else []);
    assert updates == u;
    if b.priority.Some? {
      updates := updates + [SetPriority(b.priority.value)];
    }
    u := u + (if b.priority.Some? then [SetPriority(b.priority.value)] else []);
    assert updates == u;
    if b.columnId.Some? {
      updates := updates + [SetColumnId(b.columnId.value)];
    }
    u := u + (if b.columnId.Some? then [SetColumnId(b.columnId.value)] else []);
    assert updates == u;
    AssignmentsPatch(db.tasks[taskId], b, now, updates);
    AssignmentsMove(db.State(), b, updates);
    var outcome := db.UpdateTask(taskId, updates, now);
    if outcome.Rejected? {
      return Err(InternalError);
    }
    var row := db.tasks[taskId];
    r := Ok(TaskView(row, db.users[row.createdBy].name));
  }

  /** `DELETE /tasks/:taskId`: 404 for an absent task; otherwise the task and its comments go. */
  method DeleteTask(db: Database, taskId: int) returns (r: Result<NoContent>)
    requires db.Valid()
    modifies db
    ensures db.Valid()
    ensures taskId !in old(db.tasks) ==> r == Err(TaskNotFound) && db.State() == old(db.State())
    ensures taskId in old(db.tasks) ==>
      r == Ok(NoContent) && db.State() == DeleteTaskRows(old(db.State()), taskId)
  {
    if taskId !in db.tasks {
      return Err(TaskNotFound);
    }
    var _ := db.DeleteTask(taskId);
    r := Ok(NoContent);
  }
}
