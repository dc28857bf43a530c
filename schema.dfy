/**
 * The relational store behind the API: five tables with AUTOINCREMENT ids, a unique
 * email, a default priority, a chain of ON DELETE CASCADE links
 * board -> column -> task -> comment, and references to users that do not cascade.
 * Foreign keys are enforced: a statement that would leave a dangling reference fails
 * and changes nothing.
 */
module Schema {
  import opened Wrappers
  import Bcrypt

  /** `CURRENT_TIMESTAMP`, in seconds; the caller supplies the clock. */
  type Timestamp = nat

  datatype User = User(id: int, email: string, password: Bcrypt.Digest, name: string, createdAt: Timestamp)
  datatype Board = Board(id: int, title: string, createdBy: int, createdAt: Timestamp)
  datatype Column = Column(id: int, boardId: int, title: string, position: int, createdAt: Timestamp)
  datatype Task = Task(id: int, columnId: int, title: string, description: Option<string>,
                       priority: string, createdBy: int, createdAt: Timestamp, updatedAt: Timestamp)
  datatype Comment = Comment(id: int, taskId: int, userId: int, content: string, createdAt: Timestamp)

  /** `priority TEXT DEFAULT 'medium'`. */
  const DefaultPriority: string := "medium"

  /**
   * The contents of the store: each table keyed by rowid, and for each table the
   * largest id AUTOINCREMENT has ever handed out (SQLite's `sqlite_sequence`).
   */
  datatype Tables = Tables(
    users: map<int, User>, boards: map<int, Board>, columns: map<int, Column>,
    tasks: map<int, Task>, comments: map<int, Comment>,
    userSeq: nat, boardSeq: nat, columnSeq: nat, taskSeq: nat, commentSeq: nat)

  const Empty: Tables := Tables(map[], map[], map[], map[], map[], 0, 0, 0, 0, 0)

  /** Every row is stored under its own id, and no id exceeds its table's high-water mark. */
  ghost predicate RowIdsInRange(t: Tables) {
    && (forall k :: k in t.users ==> t.users[k].id == k && 1 <= k <= t.userSeq)
    && (forall k :: k in t.boards ==> t.boards[k].id == k && 1 <= k <= t.boardSeq)
    && (forall k :: k in t.columns ==> t.columns[k].id == k && 1 <= k <= t.columnSeq)
    && (forall k :: k in t.tasks ==> t.tasks[k].id == k && 1 <= k <= t.taskSeq)
    && (forall k :: k in t.comments ==> t.comments[k].id == k && 1 <= k <= t.commentSeq)
  }

  /** `email TEXT UNIQUE`. */
  ghost predicate EmailsUnique(t: Tables) {
    forall a, b :: a in t.users && b in t.users && t.users[a].email == t.users[b].email ==> a == b
  }

  /** Every foreign key names an existing row. */
  ghost predicate ReferencesResolve(t: Tables) {
    && (forall k :: k in t.boards ==> t.boards[k].createdBy in t.users)
    && (forall k :: k in t.columns ==> t.columns[k].boardId in t.boards)
    && (forall k :: k in t.tasks ==> t.tasks[k].columnId in t.columns && t.tasks[k].createdBy in t.users)
    && (forall k :: k in t.comments ==> t.comments[k].taskId in t.tasks && t.comments[k].userId in t.users)
  }

  ghost predicate Consistent(t: Tables) {
    RowIdsInRange(t) && EmailsUnique(t) && ReferencesResolve(t)
  }

  predicate EmailTaken(t: Tables, email: string) {
    exists k :: k in t.users && t.users[k].email == email
  }

  /** Some row refers to user `u` through one of the non-cascading foreign keys. */
  predicate ReferencesUser(t: Tables, u: int) {
    || (exists k :: k in t.boards && t.boards[k].createdBy == u)
    || (exists k :: k in t.tasks && t.tasks[k].createdBy == u)
    || (exists k :: k in t.comments && t.comments[k].userId == u)
  }

  /**
   * ON DELETE CASCADE along board -> column -> task -> comment: a column survives only
   * while its board does, a task while its column does, a comment while its task does.
   */
  function Cascade(t: Tables): (r: Tables)
    ensures r.users == t.users && r.boards == t.boards
    ensures r.userSeq == t.userSeq && r.boardSeq == t.boardSeq && r.columnSeq == t.columnSeq
    ensures r.taskSeq == t.taskSeq && r.commentSeq == t.commentSeq
    ensures forall k :: k in r.columns ==> r.columns[k].boardId in r.boards
    ensures forall k :: k in r.tasks ==> r.tasks[k].columnId in r.columns
    ensures forall k :: k in r.comments ==> r.comments[k].taskId in r.tasks
  {
    var columns := LiveColumns(t.columns, t.boards);
    var tasks := LiveTasks(t.tasks, columns);
    t.(columns := columns, tasks := tasks, comments := LiveComments(t.comments, tasks))
  }

  /** The columns whose board is still there. */
  function LiveColumns(columns: map<int, Column>, boards: map<int, Board>): (r: map<int, Column>)
    ensures forall k :: k in r <==> k in columns && columns[k].boardId in boards
    ensures forall k :: k in r ==> r[k] == columns[k]
  {
    map k | k in columns && columns[k].boardId in boards :: columns[k]
  }

  /** The tasks whose column is still there. */
  function LiveTasks(tasks: map<int, Task>, columns: map<int, Column>): (r: map<int, Task>)
    ensures forall k :: k in r <==> k in tasks && tasks[k].columnId in columns
    ensures forall k :: k in r ==> r[k] == tasks[k]
  {
    map k | k in tasks && tasks[k].columnId in columns :: tasks[k]
  }

  /** The comments whose task is still there. */
  function LiveComments(comments: map<int, Comment>, tasks: map<int, Task>): (r: map<int, Comment>)
    ensures forall k :: k in r <==> k in comments && comments[k].taskId in tasks
    ensures forall k :: k in r ==> r[k] == comments[k]
  {
    map k | k in comments && comments[k].taskId in tasks :: comments[k]
  }

  lemma LiveColumnsKeepsAll(columns: map<int, Column>, boards: map<int, Board>)
    requires forall k :: k in columns ==> columns[k].boardId in boards
    ensures LiveColumns(columns, boards) == columns
  {
    var r := LiveColumns(columns, boards);
    forall k | k in columns ensures k in r {
      assert columns[k].boardId in boards;
    }
    assert r.Keys == columns.Keys;
  }

  lemma LiveTasksKeepsAll(tasks: map<int, Task>, columns: map<int, Column>)
    requires forall k :: k in tasks ==> tasks[k].columnId in columns
    ensures LiveTasks(tasks, columns) == tasks
  {
    var r := LiveTasks(tasks, columns);
    forall k | k in tasks ensures k in r {
      assert tasks[k].columnId in columns;
    }
    assert r.Keys == tasks.Keys;
  }

  lemma LiveCommentsKeepsAll(comments: map<int, Comment>, tasks: map<int, Task>)
    requires forall k :: k in comments ==> comments[k].taskId in tasks
    ensures LiveComments(comments, tasks) == comments
  {
    var r := LiveComments(comments, tasks);
    forall k | k in comments ensures k in r {
      assert comments[k].taskId in tasks;
    }
    assert r.Keys == comments.Keys;
  }

  /** `DELETE FROM boards WHERE id = ?` with its cascade. */
  function DeleteBoardRows(t: Tables, id: int): (r: Tables)
    ensures Consistent(t) ==> Consistent(r)
  {
    Cascade(t.(boards := t.boards - {id}))
  }

  /** `DELETE FROM columns WHERE id = ?` with its cascade. */
  function DeleteColumnRows(t: Tables, id: int): (r: Tables)
    ensures Consistent(t) ==> Consistent(r)
  {
    Cascade(t.(columns := t.columns - {id}))
  }

  /** `DELETE FROM tasks WHERE id = ?` with its cascade. */
  function DeleteTaskRows(t: Tables, id: int): (r: Tables)
    ensures Consistent(t) ==> Consistent(r)
  {
    Cascade(t.(tasks := t.tasks - {id}))
  }

  /**
   * Deleting a board removes exactly its columns, their tasks and those tasks' comments;
   * every other row stays as it was.
   */
  lemma DeleteBoardCascades(t: Tables, b: int)
    requires Consistent(t)
    ensures var r := DeleteBoardRows(t, b);
      && r.users == t.users && r.boards == t.boards - {b}
      && (forall k :: k in r.columns <==> k in t.columns && t.columns[k].boardId != b)
      && (forall k :: k in r.tasks <==>
            k in t.tasks && t.columns[t.tasks[k].columnId].boardId != b)
      && (forall k :: k in r.comments <==>
            k in t.comments && t.columns[t.tasks[t.comments[k].taskId].columnId].boardId != b)
      && (forall k :: k in r.columns ==> r.columns[k] == t.columns[k])
      && (forall k :: k in r.tasks ==> r.tasks[k] == t.tasks[k])
      && (forall k :: k in r.comments ==> r.comments[k] == t.comments[k])
  {
  }

  /** Deleting a column removes exactly its tasks and their comments. */
  lemma DeleteColumnCascades(t: Tables, c: int)
    requires Consistent(t)
    ensures var r := DeleteColumnRows(t, c);
      && r.users == t.users && r.boards == t.boards && r.columns == t.columns - {c}
      && (forall k :: k in r.tasks <==> k in t.tasks && t.tasks[k].columnId != c)
      && (forall k :: k in r.comments <==>
            k in t.comments && t.tasks[t.comments[k].taskId].columnId != c)
      && (forall k :: k in r.tasks ==> r.tasks[k] == t.tasks[k])
      && (forall k :: k in r.comments ==> r.comments[k] == t.comments[k])
  {
    var cs := t.columns - {c};
    LiveColumnsKeepsAll(cs, t.boards);
  }

  /** Deleting a task removes exactly it and its comments. */
  lemma DeleteTaskCascades(t: Tables, id: int)
    requires Consistent(t)
    ensures var r := DeleteTaskRows(t, id);
      && r.users == t.users && r.boards == t.boards && r.columns == t.columns
      && r.tasks == t.tasks - {id}
      && (forall k :: k in r.comments <==> k in t.comments && t.comments[k].taskId != id)
      && (forall k :: k in r.comments ==> r.comments[k] == t.comments[k])
  {
    LiveColumnsKeepsAll(t.columns, t.boards);
    LiveTasksKeepsAll(t.tasks - {id}, t.columns);
  }

  /** Deleting an id that is not there changes nothing. */
  lemma DeleteAbsentIsNoop(t: Tables, id: int)
    requires Consistent(t)
    ensures id !in t.boards ==> DeleteBoardRows(t, id) == t
    ensures id !in t.columns ==> DeleteColumnRows(t, id) == t
    ensures id !in t.tasks ==> DeleteTaskRows(t, id) == t
  {
    if id !in t.boards {
      assert t.boards - {id} == t.boards;
      CascadeOfConsistentIsIdentity(t);
    }
    if id !in t.columns {
      assert t.columns - {id} == t.columns;
      CascadeOfConsistentIsIdentity(t);
    }
    if id !in t.tasks {
      assert t.tasks - {id} == t.tasks;
      CascadeOfConsistentIsIdentity(t);
    }
  }

  /** On a store without dangling references the cascade removes nothing. */
  lemma CascadeOfConsistentIsIdentity(t: Tables)
    requires ReferencesResolve(t)
    ensures Cascade(t) == t
  {
    LiveColumnsKeepsAll(t.columns, t.boards);
    LiveTasksKeepsAll(t.tasks, t.columns);
    LiveCommentsKeepsAll(t.comments, t.tasks);
  }

  /** One assignment of an `UPDATE columns SET ...` statement. */
  datatype ColumnSet = SetColumnTitle(title: string) | SetPosition(position: int)

  /** The assignments applied left to right. */
  function ApplyColumnSets(c: Column, sets: seq<ColumnSet>): (r: Column)
    ensures r.id == c.id && r.boardId == c.boardId && r.createdAt == c.createdAt
  {
    if sets == [] then c
    else
      var prev := ApplyColumnSets(c, sets[..|sets| - 1]);
      match sets[|sets| - 1]
      case SetColumnTitle(s) => prev.(title := s)
      case SetPosition(p) => prev.(position := p)
  }

  /** One assignment of an `UPDATE tasks SET ...` statement. */
  datatype TaskSet =
    | TouchUpdatedAt
    | SetTaskTitle(title: string)
    | SetDescription(description: string)
    | SetPriority(priority: string)
    | SetColumnId(columnId: int)

  /** The assignments applied left to right; `TouchUpdatedAt` is `updated_at = CURRENT_TIMESTAMP`. */
  function ApplyTaskSets(t: Task, sets: seq<TaskSet>, now: Timestamp): (r: Task)
    ensures r.id == t.id && r.createdBy == t.createdBy && r.createdAt == t.createdAt
    ensures r.columnId == t.columnId || SetColumnId(r.columnId) in sets
  {
    if sets == [] then t
    else
      var prev := ApplyTaskSets(t, sets[..|sets| - 1], now);
      match sets[|sets| - 1]
      case TouchUpdatedAt => prev.(updatedAt := now)
      case SetTaskTitle(s) => prev.(title := s)
      case SetDescription(d) => prev.(description := Some(d))
      case SetPriority(p) => prev.(priority := p)
      case SetColumnId(c) => prev.(columnId := c)
  }

  /** The assignments would point the task at a column that does not exist. */
  predicate MovesToMissingColumn(t: Tables, sets: seq<TaskSet>) {
    exists i :: 0 <= i < |sets| && sets[i].SetColumnId? && sets[i].columnId !in t.columns
  }

  datatype Constraint = UniqueEmail | ForeignKey

  /** What a write statement reports: the new rowid, plain success, or a constraint failure. */
  datatype Outcome = Inserted(id: int) | Applied | Rejected(constraint: Constraint)

  /** The database handle: one connection with `foreign_keys = ON`. */
  class Database {
    /** The schema has been created (`initDatabase` has run on this file). */
    var ready: bool
    var users: map<int, User>
    var boards: map<int, Board>
    var columns: map<int, Column>
    var tasks: map<int, Task>
    var comments: map<int, Comment>
    var userSeq: nat
    var boardSeq: nat
    var columnSeq: nat
    var taskSeq: nat
    var commentSeq: nat

    function State(): Tables
      reads this
    {
      Tables(users, boards, columns, tasks, comments, userSeq, boardSeq, columnSeq, taskSeq, commentSeq)
    }

    ghost predicate Valid()
      reads this
    {
      ready && Consistent(State())
    }

    /** A freshly created database file: no schema yet. */
    constructor Open()
      ensures !ready && State() == Empty
    {
      ready := false;
      users, boards, columns, tasks, comments := map[], map[], map[], map[], map[];
      userSeq, boardSeq, columnSeq, taskSeq, commentSeq := 0, 0, 0, 0, 0;
    }

    /**
     * `initDatabase`: every `CREATE ... IF NOT EXISTS` creates an empty table on a new
     * file and does nothing on a file that already has the schema.
     */
    method InitDatabase()
      requires ready ==> Consistent(State())
      modifies this
      ensures Valid()
      ensures old(ready) ==> State() == old(State())
      ensures !old(ready) ==> State() == Empty
    {
      if !ready {
        ready := true;
        users, boards, columns, tasks, comments := map[], map[], map[], map[], map[];
        userSeq, boardSeq, columnSeq, taskSeq, commentSeq := 0, 0, 0, 0, 0;
      }
    }

    /** `INSERT INTO users (email, password, name)`. */
    method InsertUser(email: string, password: Bcrypt.Digest, name: string, now: Timestamp) returns (r: Outcome)
      requires Valid()
      modifies this
      ensures Valid()
      ensures EmailTaken(old(State()), email) ==> r == Rejected(UniqueEmail) && State() == old(State())
      ensures !EmailTaken(old(State()), email) ==>
        && r == Inserted(old(userSeq) + 1)
        && (forall k :: k in old(users) ==> k < r.id)
        && State() == old(State()).(users := old(users)[r.id := User(r.id, email, password, name, now)],
                                    userSeq := r.id)
    {
      if EmailTaken(State(), email) {
        return Rejected(UniqueEmail);
      }
      var id := userSeq + 1;
      users := users[id := User(id, email, password, name, now)];
      userSeq := id;
      r := Inserted(id);
    }

    /** `INSERT INTO boards (title, created_by)`. */
    method InsertBoard(title: string, createdBy: int, now: Timestamp) returns (r: Outcome)
      requires Valid()
      modifies this
      ensures Valid()
      ensures createdBy !in old(users) ==> r == Rejected(ForeignKey) && State() == old(State())
      ensures createdBy in old(users) ==>
        && r == Inserted(old(boardSeq) + 1)
        && (forall k :: k in old(boards) ==> k < r.id)
        && State() == old(State()).(boards := old(boards)[r.id := Board(r.id, title, createdBy, now)],
                                    boardSeq := r.id)
    {
      if createdBy !in users {
        return Rejected(ForeignKey);
      }
      var id := boardSeq + 1;
      boards := boards[id := Board(id, title, createdBy, now)];
      boardSeq := id;
      r := Inserted(id);
    }

    /** `INSERT INTO columns (board_id, title, position)`; any integer position is accepted. */
    method InsertColumn(boardId: int, title: string, position: int, now: Timestamp) returns (r: Outcome)
      requires Valid()
      modifies this
      ensures Valid()
      ensures boardId !in old(boards) ==> r == Rejected(ForeignKey) && State() == old(State())
      ensures boardId in old(boards) ==>
        && r == Inserted(old(columnSeq) + 1)
        && (forall k :: k in old(columns) ==> k < r.id)
        && State() == old(State()).(columns := old(columns)[r.id := Column(r.id, boardId, title, position, now)],
                                    columnSeq := r.id)
    {
      if boardId !in boards {
        return Rejected(ForeignKey);
      }
      var id := columnSeq + 1;
      columns := columns[id := Column(id, boardId, title, position, now)];
      columnSeq := id;
      r := Inserted(id);
    }

    /**
     * `INSERT INTO tasks (column_id, title, description, priority, created_by)`;
     * `priority == None` means the column was left out, so its default applies.
     */
    method InsertTask(columnId: int, title: string, description: Option<string>, priority: Option<string>,
                      createdBy: int, now: Timestamp) returns (r: Outcome)
      requires Valid()
      modifies this
      ensures Valid()
      ensures (columnId !in old(columns) || createdBy !in old(users)) ==>
        r == Rejected(ForeignKey) && State() == old(State())
      ensures columnId in old(columns) && createdBy in old(users) ==>
        && r == Inserted(old(taskSeq) + 1)
        && (forall k :: k in old(tasks) ==> k < r.id)
        && State() == old(State()).(
             tasks := old(tasks)[r.id := Task(r.id, columnId, title, description,
                                              priority.GetOr(DefaultPriority), createdBy, now, now)],
             taskSeq := r.id)
    {
      if columnId !in columns || createdBy !in users {
        return Rejected(ForeignKey);
      }
      var id := taskSeq + 1;
      tasks := tasks[id := Task(id, columnId, title, description, priority.GetOr(DefaultPriority), createdBy, now, now)];
      taskSeq := id;
      r := Inserted(id);
    }

    /** `INSERT INTO comments (task_id, user_id, content)`. */
    method InsertComment(taskId: int, userId: int, content: string, now: Timestamp) returns (r: Outcome)
      requires Valid()
      modifies this
      ensures Valid()
      ensures (taskId !in old(tasks) || userId !in old(users)) ==>
        r == Rejected(ForeignKey) && State() == old(State())
      ensures taskId in old(tasks) && userId in old(users) ==>
        && r == Inserted(old(commentSeq) + 1)
        && (forall k :: k in old(comments) ==> k < r.id)
        && State() == old(State()).(comments := old(comments)[r.id := Comment(r.id, taskId, userId, content, now)],
                                    commentSeq := r.id)
    {
      if taskId !in tasks || userId !in users {
        return Rejected(ForeignKey);
      }
      var id := commentSeq + 1;
      comments := comments[id := Comment(id, taskId, userId, content, now)];
      commentSeq := id;
      r := Inserted(id);
    }

    /** `UPDATE columns SET ... WHERE id = ?`; no row matches an absent id. */
    method UpdateColumn(id: int, sets: seq<ColumnSet>) returns (r: Outcome)
      requires Valid()
      modifies this
      ensures Valid() && r == Applied
      ensures id !in old(columns) ==> State() == old(State())
      ensures id in old(columns) ==>
        State() == old(State()).(columns := old(columns)[id := ApplyColumnSets(old(columns)[id], sets)])
    {
      if id in columns {
        columns := columns[id := ApplyColumnSets(columns[id], sets)];
      }
      r := Applied;
    }

    /** `UPDATE tasks SET ... WHERE id = ?`; moving the task to a missing column fails. */
    method UpdateTask(id: int, sets: seq<TaskSet>, now: Timestamp) returns (r: Outcome)
      requires Valid()
      modifies this
      ensures Valid()
      ensures id !in old(tasks) ==> r == Applied && State() == old(State())
      ensures id in old(tasks) && MovesToMissingColumn(old(State()), sets) ==>
        r == Rejected(ForeignKey) && State() == old(State())
      ensures id in old(tasks) && !MovesToMissingColumn(old(State()), sets) ==>
        r == Applied &&
        State() == old(State()).(tasks := old(tasks)[id := ApplyTaskSets(old(tasks)[id], sets, now)])
    {
      if id !in tasks {
        return Applied;
      }
      if MovesToMissingColumn(State(), sets) {
        return Rejected(ForeignKey);
      }
      var row := ApplyTaskSets(tasks[id], sets, now);
      assert row.columnId in columns by {
        if row.columnId != tasks[id].columnId {
          var i :| 0 <= i < |sets| && sets[i] == SetColumnId(row.columnId);
        }
      }
      tasks := tasks[id := row];
      r := Applied;
    }

    /** `DELETE FROM boards WHERE id = ?`; no route issues it, the seed creates the only board. */
    method DeleteBoard(id: int) returns (r: Outcome)
      requires Valid()
      modifies this
      ensures Valid() && r == Applied
      ensures State() == DeleteBoardRows(old(State()), id)
    {
      var t := DeleteBoardRows(State(), id);
      boards, columns, tasks, comments := t.boards, t.columns, t.tasks, t.comments;
      r := Applied;
    }

    method DeleteColumn(id: int) returns (r: Outcome)
      requires Valid()
      modifies this
      ensures Valid() && r == Applied
      ensures State() == DeleteColumnRows(old(State()), id)
    {
      var t := DeleteColumnRows(State(), id);
      boards, columns, tasks, comments := t.boards, t.columns, t.tasks, t.comments;
      r := Applied;
    }

    method DeleteTask(id: int) returns (r: Outcome)
      requires Valid()
      modifies this
      ensures Valid() && r == Applied
      ensures State() == DeleteTaskRows(old(State()), id)
    {
      var t := DeleteTaskRows(State(), id);
      boards, columns, tasks, comments := t.boards, t.columns, t.tasks, t.comments;
      r := Applied;
    }

    /**
     * `DELETE FROM users WHERE id = ?`; no route issues it. The references to users carry
     * no ON DELETE action, so a user someone still refers to cannot be removed.
     */
    method DeleteUser(id: int) returns (r: Outcome)
      requires Valid()
      modifies this
      ensures Valid()
      ensures ReferencesUser(old(State()), id) ==> r == Rejected(ForeignKey) && State() == old(State())
      ensures !ReferencesUser(old(State()), id) ==>
        r == Applied && State() == old(State()).(users := old(users) - {id})
    {
      if ReferencesUser(State(), id) {
        return Rejected(ForeignKey);
      }
      users := users - {id};
      r := Applied;
    }
  }
}
