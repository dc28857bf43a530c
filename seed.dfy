/**
 * The demo data: on a store without users, two accounts sharing one password, one board
 * owned by the first, three columns, four tasks and a two-comment thread on the first
 * task. A store that already has a user is left alone.
 */
module Seed {
  import opened Wrappers
  import opened Api
  import opened Schema
  import Bcrypt
  import Zod
  import Middleware
  import AuthRoutes
  import Comments
  import Boards
  import Query
  import Ordering

  const DemoEmail: string := "demo@example.com"
  const JohnEmail: string := "john@example.com"
  const DemoPassword: string := "password123"
  const BoardTitle: string := "Team Project Board"
  const TodoTitle: string := "To Do"
  const InProgressTitle: string := "In Progress"
  const DoneTitle: string := "Done"
  const Task1Title: string := "Design new landing page"
  const Task1Description: string := "Create mockups for the new landing page design"
  const Task2Title: string := "Setup CI/CD pipeline"
  const Task2Description: string := "Configure GitHub Actions for automated testing"
  const Task3Title: string := "Implement authentication"
  const Task3Description: string := "Add JWT-based authentication to the API"
  const Task4Title: string := "Project setup"
  const Task4Description: string := "Initialize project with TypeScript and dependencies"
  const High: string := "high"
  const Medium: string := "medium"
  const Comment1: string := "Let's use Figma for this"
  const Comment2: string := "Sounds good! I'll review it once ready"
  const DemoName: string := "Demo User"
  const JohnName: string := "John Doe"

  /** The one digest both demo accounts store: `bcrypt.hash('password123', 10)`. */
  function SeedDigest(salt: nat): Bcrypt.Digest {
    Bcrypt.Hash(DemoPassword, Bcrypt.Rounds, salt)
  }

  /** The demo account's row: the first id after the users' high-water mark. */
  function DemoUser(t: Tables, h: Bcrypt.Digest, now: Timestamp): User {
    User(t.userSeq + 1, DemoEmail, h, DemoName, now)
  }

  function JohnUser(t: Tables, h: Bcrypt.Digest, now: Timestamp): User {
    User(t.userSeq + 2, JohnEmail, h, JohnName, now)
  }

  /**
   * The store after the twelve inserts of the seed: two accounts sharing one digest, the
   * board of the first, its three columns at positions 0, 1 and 2, four tasks with the
   * accounts alternating as creators, and two comments on the first task. Each id is the
   * next one of its table, as `lastInsertRowid` reports it.
   */
  function Seeded(t: Tables, salt: nat, now: Timestamp): Tables {
    var u1, u2 := t.userSeq + 1, t.userSeq + 2;
    var b := t.boardSeq + 1;
    var todo, progress, done := t.columnSeq + 1, t.columnSeq + 2, t.columnSeq + 3;
    var k := t.taskSeq + 1;
    var c := t.commentSeq + 1;
    var h := SeedDigest(salt);
    t.(users := t.users[u1 := DemoUser(t, h, now)][u2 := JohnUser(t, h, now)],
       boards := t.boards[b := Board(b, BoardTitle, u1, now)],
       columns := t.columns[todo := Column(todo, b, TodoTitle, 0, now)]
                           [progress := Column(progress, b, InProgressTitle, 1, now)]
                           [done := Column(done, b, DoneTitle, 2, now)],
       tasks := t.tasks[k := Task(k, todo, Task1Title, Some(Task1Description), High, u1, now, now)]
                       [k + 1 := Task(k + 1, todo, Task2Title, Some(Task2Description), Medium, u2, now, now)]
                       [k + 2 := Task(k + 2, progress, Task3Title, Some(Task3Description), High, u1, now, now)]
                       [k + 3 := Task(k + 3, done, Task4Title, Some(Task4Description), Medium, u2, now, now)],
       comments := t.comments[c := Comment(c, k, u1, Comment1, now)]
                             [c + 1 := Comment(c + 1, k, u2, Comment2, now)],
       userSeq := u2, boardSeq := b, columnSeq := done, taskSeq := k + 3, commentSeq := c + 1)
  }

  /** `seedDatabase`: nothing happens once `SELECT COUNT(*) FROM users` is positive. */
  function SeedResult(t: Tables, salt: nat, now: Timestamp): Tables {
    if |t.users| > 0 then t else Seeded(t, salt, now)
  }

  /** Running the seed a second time changes nothing. */
  lemma SeedIdempotent(t: Tables, salt: nat, salt': nat, now: Timestamp, later: Timestamp)
    ensures SeedResult(SeedResult(t, salt, now), salt', later) == SeedResult(t, salt, now)
  {
    SeededHasUsers(t, salt, now);
  }

  /** After the seed the demo account is in the store. */
  lemma SeededHasUsers(t: Tables, salt: nat, now: Timestamp)
    ensures |SeedResult(t, salt, now).users| > 0
  {
    if |t.users| == 0 {
      var s := Seeded(t, salt, now);
      assert t.userSeq + 1 in s.users;
    }
  }

  /** A consistent store without users holds no rows at all: every other row leads to a user. */
  lemma NoUsersNoRows(t: Tables)
    requires Consistent(t) && |t.users| == 0
    ensures t.boards == map[] && t.columns == map[] && t.tasks == map[] && t.comments == map[]
  {
    assert t.users == map[];
    assert forall k :: k !in t.boards;
    assert forall k :: k !in t.columns;
    assert forall k :: k !in t.tasks;
    assert forall k :: k !in t.comments;
  }

  lemma SeededRowIds(t: Tables, salt: nat, now: Timestamp)
    requires RowIdsInRange(t)
    ensures RowIdsInRange(Seeded(t, salt, now))
  {
    var h, u1, b, todo, k := SeedDigest(salt), t.userSeq + 1, t.boardSeq + 1, t.columnSeq + 1, t.taskSeq + 1;
    var t1 := AccountsAdded(t, h, now);
    var t2 := BoardAdded(t1, u1, now);
    var t3 := ColumnsAdded(t2, b, now);
    var t4 := TasksAdded(t3, todo, todo + 1, todo + 2, u1, u1 + 1, now);
    AccountsKeepRowIds(t, h, now);
    BoardKeepsRowIds(t1, u1, now);
    ColumnsKeepRowIds(t2, b, now);
    TasksKeepRowIds(t3, todo, todo + 1, todo + 2, u1, u1 + 1, now);
    CommentsKeepRowIds(t4, k, u1, u1 + 1, now);
    SeedSteps(t, salt, now, u1, u1 + 1, b, todo, todo + 1, todo + 2, k);
  }

  /** Each group of inserts takes the next ids of its table, so rowids stay in range. */
  lemma AccountsKeepRowIds(t: Tables, h: Bcrypt.Digest, now: Timestamp)
    requires RowIdsInRange(t)
    ensures RowIdsInRange(AccountsAdded(t, h, now))
  {
  }

  lemma BoardKeepsRowIds(t: Tables, owner: int, now: Timestamp)
    requires RowIdsInRange(t)
    ensures RowIdsInRange(BoardAdded(t, owner, now))
  {
  }

  lemma ColumnsKeepRowIds(t: Tables, board: int, now: Timestamp)
    requires RowIdsInRange(t)
    ensures RowIdsInRange(ColumnsAdded(t, board, now))
  {
  }

  lemma TasksKeepRowIds(t: Tables, todo: int, progress: int, done: int, u1: int, u2: int, now: Timestamp)
    requires RowIdsInRange(t)
    ensures RowIdsInRange(TasksAdded(t, todo, progress, done, u1, u2, now))
  {
  }

  lemma CommentsKeepRowIds(t: Tables, task: int, u1: int, u2: int, now: Timestamp)
    requires RowIdsInRange(t)
    ensures RowIdsInRange(CommentsAdded(t, task, u1, u2, now))
  {
  }

  lemma SeededEmails(t: Tables, salt: nat, now: Timestamp)
    requires t.users == map[]
    ensures EmailsUnique(Seeded(t, salt, now))
  {
    var s := Seeded(t, salt, now);
    assert s.users == map[t.userSeq + 1 := DemoUser(t, SeedDigest(salt), now)][t.userSeq + 2 := JohnUser(t, SeedDigest(salt), now)];
    assert DemoEmail[0] != JohnEmail[0];
  }

  lemma SeededReferences(t: Tables, salt: nat, now: Timestamp)
    requires ReferencesResolve(t)
    ensures ReferencesResolve(Seeded(t, salt, now))
  {
    var h, u1, b, todo, k := SeedDigest(salt), t.userSeq + 1, t.boardSeq + 1, t.columnSeq + 1, t.taskSeq + 1;
    var t1 := AccountsAdded(t, h, now);
    AccountsKeepReferences(t, h, now);
    var t2 := BoardAdded(t1, u1, now);
    BoardKeepsReferences(t1, u1, now);
    var t3 := ColumnsAdded(t2, b, now);
    ColumnsKeepReferences(t2, b, now);
    var t4 := TasksAdded(t3, todo, todo + 1, todo + 2, u1, u1 + 1, now);
    TasksKeepReferences(t3, todo, todo + 1, todo + 2, u1, u1 + 1, now);
    CommentsKeepReferences(t4, k, u1, u1 + 1, now);
    SeedSteps(t, salt, now, u1, u1 + 1, b, todo, todo + 1, todo + 2, k);
  }

  lemma AccountsKeepReferences(t: Tables, h: Bcrypt.Digest, now: Timestamp)
    requires ReferencesResolve(t)
    ensures var r := AccountsAdded(t, h, now);
      ReferencesResolve(r) && t.userSeq + 1 in r.users && t.userSeq + 2 in r.users
  {
  }

  lemma BoardKeepsReferences(t: Tables, owner: int, now: Timestamp)
    requires ReferencesResolve(t) && owner in t.users
    ensures var r := BoardAdded(t, owner, now);
      ReferencesResolve(r) && r.users == t.users && t.boardSeq + 1 in r.boards
  {
  }

  lemma ColumnsKeepReferences(t: Tables, board: int, now: Timestamp)
    requires ReferencesResolve(t) && board in t.boards
    ensures var r := ColumnsAdded(t, board, now);
      && ReferencesResolve(r) && r.users == t.users
      && t.columnSeq + 1 in r.columns && t.columnSeq + 2 in r.columns && t.columnSeq + 3 in r.columns
  {
  }

  lemma TasksKeepReferences(t: Tables, todo: int, progress: int, done: int, u1: int, u2: int, now: Timestamp)
    requires ReferencesResolve(t) && todo in t.columns && progress in t.columns && done in t.columns
    requires u1 in t.users && u2 in t.users
    ensures var r := TasksAdded(t, todo, progress, done, u1, u2, now);
      ReferencesResolve(r) && r.users == t.users && t.taskSeq + 1 in r.tasks
  {
  }

  lemma CommentsKeepReferences(t: Tables, task: int, u1: int, u2: int, now: Timestamp)
    requires ReferencesResolve(t) && task in t.tasks && u1 in t.users && u2 in t.users
    ensures ReferencesResolve(CommentsAdded(t, task, u1, u2, now))
  {
  }

  /** Seeding a consistent store without users leaves it consistent. */
  lemma SeededConsistent(t: Tables, salt: nat, now: Timestamp)
    requires Consistent(t) && |t.users| == 0
    ensures Consistent(Seeded(t, salt, now))
  {
    assert t.users == map[];
    SeededRowIds(t, salt, now);
    SeededEmails(t, salt, now);
    SeededReferences(t, salt, now);
  }

  /** With only the demo account stored, the second address is still free. */
  lemma OnlyDemoAccount(t: Tables, u: User)
    requires t.users == map[u.id := u] && u.email == DemoEmail
    ensures !EmailTaken(t, JohnEmail)
  {
    assert DemoEmail[0] != JohnEmail[0];
  }

  /** "Create demo users", on the tables. */
  function AccountsAdded(t: Tables, h: Bcrypt.Digest, now: Timestamp): Tables {
    t.(users := t.users[t.userSeq + 1 := DemoUser(t, h, now)][t.userSeq + 2 := JohnUser(t, h, now)], userSeq := t.userSeq + 2)
  }

  /** "Create demo board", on the tables. */
  function BoardAdded(t: Tables, owner: int, now: Timestamp): Tables {
    var b := t.boardSeq + 1;
    t.(boards := t.boards[b := Board(b, BoardTitle, owner, now)], boardSeq := b)
  }

  /** "Create columns", on the tables. */
  function ColumnsAdded(t: Tables, board: int, now: Timestamp): Tables {
    var c := t.columnSeq + 1;
    t.(columns := t.columns[c := Column(c, board, TodoTitle, 0, now)]
                           [c + 1 := Column(c + 1, board, InProgressTitle, 1, now)]
                           [c + 2 := Column(c + 2, board, DoneTitle, 2, now)],
       columnSeq := c + 2)
  }

  /** "Create demo tasks", on the tables. */
  function TasksAdded(t: Tables, todo: int, progress: int, done: int, u1: int, u2: int, now: Timestamp): Tables {
    var k := t.taskSeq + 1;
    t.(tasks := t.tasks[k := Task(k, todo, Task1Title, Some(Task1Description), High, u1, now, now)]
                       [k + 1 := Task(k + 1, todo, Task2Title, Some(Task2Description), Medium, u2, now, now)]
                       [k + 2 := Task(k + 2, progress, Task3Title, Some(Task3Description), High, u1, now, now)]
                       [k + 3 := Task(k + 3, done, Task4Title, Some(Task4Description), Medium, u2, now, now)],
       taskSeq := k + 3)
  }

  /** "Create demo comments", on the tables. */
  function CommentsAdded(t: Tables, task: int, u1: int, u2: int, now: Timestamp): Tables {
    var c := t.commentSeq + 1;
    t.(comments := t.comments[c := Comment(c, task, u1, Comment1, now)][c + 1 := Comment(c + 1, task, u2, Comment2, now)],
       commentSeq := c + 1)
  }

  /** The five groups of inserts, one after the other, make the seeded store. */
  lemma SeedSteps(t: Tables, salt: nat, now: Timestamp, u1: int, u2: int, board: int,
                  todo: int, progress: int, done: int, task1: int)
    requires u1 == t.userSeq + 1 && u2 == u1 + 1 && board == t.boardSeq + 1
    requires todo == t.columnSeq + 1 && progress == todo + 1 && done == todo + 2 && task1 == t.taskSeq + 1
    ensures var t1 := AccountsAdded(t, SeedDigest(salt), now);
      var t2 := BoardAdded(t1, u1, now);
      var t3 := ColumnsAdded(t2, board, now);
      var t4 := TasksAdded(t3, todo, progress, done, u1, u2, now);
      CommentsAdded(t4, task1, u1, u2, now) == Seeded(t, salt, now)
  {
  }

  /** "Create demo users": two inserts, the second address differing from the first. */
  method SeedAccounts(db: Database, h: Bcrypt.Digest, now: Timestamp) returns (user1: int, user2: int)
    requires db.Valid() && |db.users| == 0
    modifies db
    ensures db.Valid()
    ensures user1 == old(db.userSeq) + 1 && user2 == user1 + 1 && user1 in db.users && user2 in db.users
    ensures db.State() == AccountsAdded(old(db.State()), h, now)
  {
    assert db.users == map[];
    var r1 := db.InsertUser(DemoEmail, h, DemoName, now);
    OnlyDemoAccount(db.State(), User(r1.id, DemoEmail, h, DemoName, now));
    var r2 := db.InsertUser(JohnEmail, h, JohnName, now);
    user1, user2 := r1.id, r2.id;
    assert DemoUser(old(db.State()), h, now) == User(user1, DemoEmail, h, DemoName, now);
    assert JohnUser(old(db.State()), h, now) == User(user2, JohnEmail, h, JohnName, now);
    assert db.users == old(db.users)[user1 := User(user1, DemoEmail, h, DemoName, now)][user2 := User(user2, JohnEmail, h, JohnName, now)];
  }

  /** "Create columns": three inserts into `board`. */
  method SeedColumns(db: Database, board: int, now: Timestamp) returns (todo: int, progress: int, done: int)
    requires db.Valid() && board in db.boards
    modifies db
    ensures db.Valid()
    ensures todo == old(db.columnSeq) + 1 && progress == todo + 1 && done == todo + 2
    ensures todo in db.columns && progress in db.columns && done in db.columns && db.users == old(db.users)
    ensures db.State() == ColumnsAdded(old(db.State()), board, now)
  {
    ghost var t := db.State();
    var c := db.columnSeq + 1;
    var r1 := db.InsertColumn(board, TodoTitle, 0, now);
    ghost var m1 := t.columns[c := Column(c, board, TodoTitle, 0, now)];
    assert db.State() == t.(columns := m1, columnSeq := c);
    var r2 := db.InsertColumn(board, InProgressTitle, 1, now);
    ghost var m2 := m1[c + 1 := Column(c + 1, board, InProgressTitle, 1, now)];
    assert db.State() == t.(columns := m2, columnSeq := c + 1);
    var r3 := db.InsertColumn(board, DoneTitle, 2, now);
    ghost var m3 := m2[c + 2 := Column(c + 2, board, DoneTitle, 2, now)];
    assert db.State() == t.(columns := m3, columnSeq := c + 2);
    assert ColumnsAdded(t, board, now) == t.(columns := m3, columnSeq := c + 2);
    todo, progress, done := r1.id, r2.id, r3.id;
  }

  /** "Create demo tasks": four inserts with an explicit description and priority. */
  method SeedTasks(db: Database, todo: int, progress: int, done: int, u1: int, u2: int, now: Timestamp) returns (task1: int)
    requires db.Valid() && todo in db.columns && progress in db.columns && done in db.columns
    requires u1 in db.users && u2 in db.users
    modifies db
    ensures db.Valid()
    ensures task1 == old(db.taskSeq) + 1 && task1 in db.tasks && db.users == old(db.users)
    ensures db.State() == TasksAdded(old(db.State()), todo, progress, done, u1, u2, now)
  {
    ghost var t := db.State();
    task1 := SeedTodoTasks(db, todo, u1, u2, now);
    SeedLaterTasks(db, progress, done, u1, u2, now);
    TasksInTwoSteps(t, todo, progress, done, u1, u2, now);
  }

  /** The first two tasks, both in To Do. */
  function TodoTasksAdded(t: Tables, todo: int, u1: int, u2: int, now: Timestamp): Tables {
    var k := t.taskSeq + 1;
    t.(tasks := t.tasks[k := Task(k, todo, Task1Title, Some(Task1Description), High, u1, now, now)]
                       [k + 1 := Task(k + 1, todo, Task2Title, Some(Task2Description), Medium, u2, now, now)],
       taskSeq := k + 1)
  }

  /** The last two tasks, one in progress and one done. */
  function LaterTasksAdded(t: Tables, progress: int, done: int, u1: int, u2: int, now: Timestamp): Tables {
    var k := t.taskSeq + 1;
    t.(tasks := t.tasks[k := Task(k, progress, Task3Title, Some(Task3Description), High, u1, now, now)]
                       [k + 1 := Task(k + 1, done, Task4Title, Some(Task4Description), Medium, u2, now, now)],
       taskSeq := k + 1)
  }

  lemma TasksInTwoSteps(t: Tables, todo: int, progress: int, done: int, u1: int, u2: int, now: Timestamp)
    ensures TasksAdded(t, todo, progress, done, u1, u2, now) ==
      LaterTasksAdded(TodoTasksAdded(t, todo, u1, u2, now), progress, done, u1, u2, now)
  {
  }

  method SeedTodoTasks(db: Database, todo: int, u1: int, u2: int, now: Timestamp) returns (task1: int)
    requires db.Valid() && todo in db.columns && u1 in db.users && u2 in db.users
    modifies db
    ensures db.Valid()
    ensures task1 == old(db.taskSeq) + 1 && task1 in db.tasks && db.columns == old(db.columns) && db.users == old(db.users)
    ensures db.State() == TodoTasksAdded(old(db.State()), todo, u1, u2, now)
  {
    ghost var t := db.State();
    ghost var k := t.taskSeq + 1;
    var r1 := db.InsertTask(todo, Task1Title, Some(Task1Description), Some(High), u1, now);
    ghost var m1 := t.tasks[k := Task(k, todo, Task1Title, Some(Task1Description), High, u1, now, now)];
    assert db.State() == t.(tasks := m1, taskSeq := k);
    var _ := db.InsertTask(todo, Task2Title, Some(Task2Description), Some(Medium), u2, now);
    ghost var m2 := m1[k + 1 := Task(k + 1, todo, Task2Title, Some(Task2Description), Medium, u2, now, now)];
    assert db.State() == t.(tasks := m2, taskSeq := k + 1);
    task1 := r1.id;
  }

  method SeedLaterTasks(db: Database, progress: int, done: int, u1: int, u2: int, now: Timestamp)
    requires db.Valid() && progress in db.columns && done in db.columns && u1 in db.users && u2 in db.users
    modifies db
    ensures db.Valid()
    ensures db.State() == LaterTasksAdded(old(db.State()), progress, done, u1, u2, now)
  {
    ghost var t := db.State();
    ghost var k := t.taskSeq + 1;
    var _ := db.InsertTask(progress, Task3Title, Some(Task3Description), Some(High), u1, now);
    ghost var m1 := t.tasks[k := Task(k, progress, Task3Title, Some(Task3Description), High, u1, now, now)];
    assert db.State() == t.(tasks := m1, taskSeq := k);
    var _ := db.InsertTask(done, Task4Title, Some(Task4Description), Some(Medium), u2, now);
    ghost var m2 := m1[k + 1 := Task(k + 1, done, Task4Title, Some(Task4Description), Medium, u2, now, now)];
    assert db.State() == t.(tasks := m2, taskSeq := k + 1);
  }

  /** "Create demo comments": two inserts on `task`. */
  method SeedComments(db: Database, task: int, u1: int, u2: int, now: Timestamp)
    requires db.Valid() && task in db.tasks && u1 in db.users && u2 in db.users
    modifies db
    ensures db.Valid()
    ensures db.State() == CommentsAdded(old(db.State()), task, u1, u2, now)
  {
    var _ := db.InsertComment(task, u1, Comment1, now);
    var _ := db.InsertComment(task, u2, Comment2, now);
  }

  /** "Create demo users" and "Create demo board": the accounts, then the first one's board. */
  method SeedOwners(db: Database, h: Bcrypt.Digest, now: Timestamp) returns (user1: int, user2: int, board: int)
    requires db.Valid() && |db.users| == 0
    modifies db
    ensures db.Valid()
    ensures user1 == old(db.userSeq) + 1 && user2 == user1 + 1 && board == old(db.boardSeq) + 1
    ensures user1 in db.users && user2 in db.users && board in db.boards
    ensures db.State() == BoardAdded(AccountsAdded(old(db.State()), h, now), user1, now)
  {
    user1, user2 := SeedAccounts(db, h, now);
    ghost var t1 := db.State();
    var r := db.InsertBoard(BoardTitle, user1, now);
    board := r.id;
    assert db.State() == BoardAdded(t1, user1, now);
  }

  /** "Create columns", "Create demo tasks" and "Create demo comments" on `board`. */
  method SeedBoardContents(db: Database, board: int, u1: int, u2: int, now: Timestamp)
      returns (todo: int, task1: int)
    requires db.Valid() && board in db.boards && u1 in db.users && u2 in db.users
    modifies db
    ensures db.Valid()
    ensures todo == old(db.columnSeq) + 1 && task1 == old(db.taskSeq) + 1
    ensures db.State() == CommentsAdded(TasksAdded(ColumnsAdded(old(db.State()), board, now),
      todo, todo + 1, todo + 2, u1, u2, now), task1, u1, u2, now)
  {
    var progress, done;
    todo, progress, done := SeedColumns(db, board, now);
    task1 := SeedTaskThread(db, todo, progress, done, u1, u2, now);
  }

  /** "Create demo tasks" and "Create demo comments": the tasks, then two comments on the first. */
  method SeedTaskThread(db: Database, todo: int, progress: int, done: int, u1: int, u2: int, now: Timestamp)
      returns (task1: int)
    requires db.Valid() && todo in db.columns && progress in db.columns && done in db.columns
    requires u1 in db.users && u2 in db.users
    modifies db
    ensures db.Valid()
    ensures task1 == old(db.taskSeq) + 1
    ensures db.State() == CommentsAdded(TasksAdded(old(db.State()), todo, progress, done, u1, u2, now), task1, u1, u2, now)
  {
    task1 := SeedTasks(db, todo, progress, done, u1, u2, now);
    SeedComments(db, task1, u1, u2, now);
  }

  /** The twelve inserts on a store without users. */
  method SeedEmptyStore(db: Database, salt: nat, now: Timestamp)
    requires db.Valid() && |db.users| == 0
    modifies db
    ensures db.ready
    ensures db.State() == Seeded(old(db.State()), salt, now)
  {
    ghost var t := db.State();
    var user1, user2, board := SeedOwners(db, SeedDigest(salt), now);
    var todo, task1 := SeedBoardContents(db, board, user1, user2, now);
    SeedSteps(t, salt, now, user1, user2, board, todo, todo + 1, todo + 2, task1);
  }

  /** `seedDatabase` on the live store: the twelve inserts, or nothing when a user exists. */
  method SeedDatabase(db: Database, salt: nat, now: Timestamp)
    requires db.Valid()
    modifies db
    ensures db.Valid()
    ensures db.State() == SeedResult(old(db.State()), salt, now)
  {
    if |db.users| > 0 {
      return;
    }
    ghost var t := db.State();
    SeedEmptyStore(db, salt, now);
    SeededConsistent(t, salt, now);
  }

  /** Both demo accounts can log in with `password123` and get their own account back. */
  lemma SeededLogins(t: Tables, salt: nat, now: Timestamp, secret: string, later: Timestamp)
    requires Consistent(t) && |t.users| == 0
    ensures Consistent(Seeded(t, salt, now))
    ensures var s, u1 := Seeded(t, salt, now), t.userSeq + 1;
      AuthRoutes.Login(s, AuthRoutes.LoginRequest(DemoEmail, DemoPassword), secret, later) ==
        Ok(AuthRoutes.AuthResponse(AuthRoutes.PublicUser(u1, DemoEmail, DemoName), Middleware.GenerateToken(u1, secret, later)))
    ensures var s, u2 := Seeded(t, salt, now), t.userSeq + 2;
      AuthRoutes.Login(s, AuthRoutes.LoginRequest(JohnEmail, DemoPassword), secret, later) ==
        Ok(AuthRoutes.AuthResponse(AuthRoutes.PublicUser(u2, JohnEmail, JohnName), Middleware.GenerateToken(u2, secret, later)))
  {
    SeededConsistent(t, salt, now);
    SeededAccountRows(t, salt, now);
    DemoAccountsLogIn(Seeded(t, salt, now), t.userSeq + 1, salt, now, secret, later);
  }

  /** The two account rows of the seed. */
  lemma SeededAccountRows(t: Tables, salt: nat, now: Timestamp)
    ensures var s, u1 := Seeded(t, salt, now), t.userSeq + 1;
      && u1 in s.users && s.users[u1] == User(u1, DemoEmail, SeedDigest(salt), DemoName, now)
      && u1 + 1 in s.users && s.users[u1 + 1] == User(u1 + 1, JohnEmail, SeedDigest(salt), JohnName, now)
  {
  }

  /** Two accounts holding the seed's digest log in with the seed's password. */
  lemma DemoAccountsLogIn(s: Tables, u1: int, salt: nat, now: Timestamp, secret: string, later: Timestamp)
    requires Consistent(s)
    requires u1 in s.users && s.users[u1] == User(u1, DemoEmail, SeedDigest(salt), DemoName, now)
    requires u1 + 1 in s.users && s.users[u1 + 1] == User(u1 + 1, JohnEmail, SeedDigest(salt), JohnName, now)
    ensures AuthRoutes.Login(s, AuthRoutes.LoginRequest(DemoEmail, DemoPassword), secret, later) ==
      Ok(AuthRoutes.AuthResponse(AuthRoutes.PublicUser(u1, DemoEmail, DemoName), Middleware.GenerateToken(u1, secret, later)))
    ensures AuthRoutes.Login(s, AuthRoutes.LoginRequest(JohnEmail, DemoPassword), secret, later) ==
      Ok(AuthRoutes.AuthResponse(AuthRoutes.PublicUser(u1 + 1, JohnEmail, JohnName), Middleware.GenerateToken(u1 + 1, secret, later)))
  {
    Zod.DemoAddressValid();
    Zod.JohnAddressValid();
    Bcrypt.CompareHash(DemoPassword, Bcrypt.Rounds, salt);
    AccountLogin(s, u1, DemoPassword, secret, later);
    AccountLogin(s, u1 + 1, DemoPassword, secret, later);
  }

  /** An account whose address is valid and whose digest matches the password can log in. */
  lemma AccountLogin(t: Tables, k: int, password: string, secret: string, later: Timestamp)
    requires Consistent(t) && k in t.users && Zod.ValidEmail(t.users[k].email)
    requires Bcrypt.Compare(password, t.users[k].password)
    ensures var u := t.users[k];
      AuthRoutes.Login(t, AuthRoutes.LoginRequest(u.email, password), secret, later) ==
        Ok(AuthRoutes.AuthResponse(AuthRoutes.PublicUser(k, u.email, u.name), Middleware.GenerateToken(k, secret, later)))
  {
    var u := t.users[k];
    var body := AuthRoutes.LoginRequest(u.email, password);
    assert AuthRoutes.ParseLogin(body) == Ok(AuthRoutes.LoginBody(u.email, password));
    var r := AuthRoutes.Login(t, body, secret, later);
    assert r.Ok?;
    assert t.users[r.value.user.id].email == u.email;
  }

  /** The first task carries the two-comment thread, the demo user's message first. */
  lemma SeededThread(t: Tables, salt: nat, now: Timestamp)
    requires Consistent(t) && |t.users| == 0
    ensures var s := Seeded(t, salt, now);
      var c1 := t.commentSeq + 1;
      && c1 in s.comments && c1 + 1 in s.comments
      && s.comments[c1].content == Comment1
      && s.comments[c1 + 1].content == Comment2
      && Comments.ListComments(s, t.taskSeq + 1) == [
           Comments.CommentView(s.comments[c1], DemoName, DemoEmail),
           Comments.CommentView(s.comments[c1 + 1], JohnName, JohnEmail)
         ]
  {
    NoUsersNoRows(t);
    SeededCommentRows(t, salt, now);
    SeededAccountRows(t, salt, now);
    var s := Seeded(t, salt, now);
    var u1 := t.userSeq + 1;
    ThreadOfTwo(s, t.taskSeq + 1, CommentOne(t, now), CommentTwo(t, now), s.users[u1], s.users[u1 + 1]);
  }

  /**
   * The seeded board lists its three columns, To Do, In Progress and Done, in that order
   * at positions 0, 1 and 2: the board a fresh installation shows is not empty.
   */
  lemma SeededBoardColumns(t: Tables, salt: nat, now: Timestamp)
    requires Consistent(t) && |t.users| == 0
    ensures var s, b := Seeded(t, salt, now), t.boardSeq + 1;
      var r := Boards.ListColumns(s, b);
      && |r| == 3
      && r[0].column.title == TodoTitle && r[0].column.position == 0
      && r[1].column.title == InProgressTitle && r[1].column.position == 1
      && r[2].column.title == DoneTitle && r[2].column.position == 2
  {
    NoUsersNoRows(t);
    SeededColumnRows(t, salt, now);
    var s := Seeded(t, salt, now);
    var b := t.boardSeq + 1;
    ThreeColumns(s, b, ColumnOne(t, now), ColumnTwo(t, now), ColumnThree(t, now));
  }

  function ColumnOne(t: Tables, now: Timestamp): Column {
    Column(t.columnSeq + 1, t.boardSeq + 1, TodoTitle, 0, now)
  }

  function ColumnTwo(t: Tables, now: Timestamp): Column {
    Column(t.columnSeq + 2, t.boardSeq + 1, InProgressTitle, 1, now)
  }

  function ColumnThree(t: Tables, now: Timestamp): Column {
    Column(t.columnSeq + 3, t.boardSeq + 1, DoneTitle, 2, now)
  }

  /** On a store without columns the seed's three columns are the whole table. */
  lemma SeededColumnRows(t: Tables, salt: nat, now: Timestamp)
    requires t.columns == map[]
    ensures var s := Seeded(t, salt, now);
      && s.columnSeq == t.columnSeq + 3
      && s.columns == map[t.columnSeq + 1 := ColumnOne(t, now)][t.columnSeq + 2 := ColumnTwo(t, now)][t.columnSeq + 3 := ColumnThree(t, now)]
  {
  }

  /**
   * A board whose only columns are the last three rows of the table, at increasing
   * positions, lists them in that order.
   */
  lemma ThreeColumns(s: Tables, b: int, x: Column, y: Column, z: Column)
    requires z.id == s.columnSeq && y.id == z.id - 1 && x.id == y.id - 1 >= 1
    requires s.columns == map[x.id := x][y.id := y][z.id := z]
    requires x.boardId == b && y.boardId == b && z.boardId == b
    requires x.position < y.position < z.position
    ensures var r := Boards.ListColumns(s, b);
      |r| == 3 && r[0].column == x && r[1].column == y && r[2].column == z
  {
    SelectLastThree(s.columns, z.id, (c: Column) => c.boardId == b, x, y, z);
    SortThree(x, y, z);
    assert Boards.BoardColumns(s, b) == [x, y, z];
  }

  /** A scan of the last three rowids, all kept by the filter, selects them in rowid order. */
  lemma SelectLastThree(m: map<int, Column>, n: int, p: Column -> bool, x: Column, y: Column, z: Column)
    requires n - 2 >= 1 && m == map[n - 2 := x][n - 1 := y][n := z] && p(x) && p(y) && p(z)
    ensures Query.Select(m, n, p) == [x, y, z]
  {
    Query.SelectNone(m, n - 3, p);
    assert Query.Select(m, n - 2, p) == [x];
    assert Query.Select(m, n - 1, p) == [x, y];
  }

  /** Three columns already in increasing position are left in place by `ORDER BY position`. */
  lemma SortThree(x: Column, y: Column, z: Column)
    requires x.position < y.position < z.position
    ensures Ordering.SortBy([x, y, z], Boards.ColumnRank, false) == [x, y, z]
  {
    assert [x, y, z][1..] == [y, z];
    assert [y, z][1..] == [z];
    assert Ordering.SortBy([z], Boards.ColumnRank, false) == [z];
    assert !Ordering.Precedes(Boards.ColumnRank(z), Boards.ColumnRank(y), false);
    assert Ordering.SortBy([y, z], Boards.ColumnRank, false) == [y, z];
    assert !Ordering.Precedes(Boards.ColumnRank(y), Boards.ColumnRank(x), false);
  }

  /** The demo user's comment on the first task. */
  function CommentOne(t: Tables, now: Timestamp): Comment {
    Comment(t.commentSeq + 1, t.taskSeq + 1, t.userSeq + 1, Comment1, now)
  }

  /** The reply by the second account. */
  function CommentTwo(t: Tables, now: Timestamp): Comment {
    Comment(t.commentSeq + 2, t.taskSeq + 1, t.userSeq + 2, Comment2, now)
  }

  /** On a store without comments the seed's two comments are the whole table. */
  lemma SeededCommentRows(t: Tables, salt: nat, now: Timestamp)
    requires t.comments == map[]
    ensures var s := Seeded(t, salt, now);
      && s.commentSeq == t.commentSeq + 2
      && s.comments == map[t.commentSeq + 1 := CommentOne(t, now)][t.commentSeq + 2 := CommentTwo(t, now)]
  {
  }

  /**
   * A task whose only comments are the last two rows of the table, made in the same second,
   * lists them in rowid order, each with its author.
   */
  lemma ThreadOfTwo(s: Tables, task: int, a: Comment, b: Comment, ua: User, ub: User)
    requires b.id == s.commentSeq && a.id == b.id - 1 >= 1 && s.comments == map[a.id := a][b.id := b]
    requires a.taskId == task && b.taskId == task && a.createdAt == b.createdAt
    requires a.userId in s.users && s.users[a.userId] == ua && b.userId in s.users && s.users[b.userId] == ub
    ensures Comments.ListComments(s, task) ==
      [Comments.CommentView(a, ua.name, ua.email), Comments.CommentView(b, ub.name, ub.email)]
  {
    SelectLastTwo(s.comments, b.id, Comments.OnTask(task), a, b);
    assert Comments.TaskComments(s, task) == [a, b];
    SortPair(a, b);
    JoinPair(a, b, s.users);
    var joined := [(a, ua), (b, ub)];
    assert Query.Join(Ordering.SortBy(Comments.TaskComments(s, task), Comments.CommentRank(), false), Comments.Author, s.users) == joined;
    var r := Comments.ListComments(s, task);
    assert |r| == 2;
  }

  /** A scan over a table holding exactly two matching rows, the last two ids, finds both in order. */
  lemma SelectLastTwo(m: map<int, Comment>, n: int, p: Comment -> bool, a: Comment, b: Comment)
    requires n - 1 >= 1 && m == map[n - 1 := a][n := b] && p(a) && p(b)
    ensures Query.Select(m, n, p) == [a, b]
  {
    Query.SelectNone(m, n - 2, p);
    assert Query.Select(m, n - 1, p) == [a];
  }

  /** Two comments of the same second are ordered by id. */
  lemma SortPair(a: Comment, b: Comment)
    requires a.createdAt == b.createdAt && a.id < b.id
    ensures Ordering.SortBy([a, b], Comments.CommentRank(), false) == [a, b]
  {
    assert [a, b][1..] == [b];
    assert Ordering.SortBy([b], Comments.CommentRank(), false) == [b];
    assert !Ordering.Precedes(Comments.CommentRank()(b), Comments.CommentRank()(a), false);
  }

  /** Two comments whose authors exist join with them in order. */
  lemma JoinPair(a: Comment, b: Comment, users: map<int, User>)
    requires a.userId in users && b.userId in users
    ensures Query.Join([a, b], Comments.Author, users) == [(a, users[a.userId]), (b, users[b.userId])]
  {
    assert [a, b][1..] == [b];
    assert [b][1..] == [];
  }
}
