/**
 * The board routes: one board with its creator's name, the columns of a board in
 * position order with their task counts, and adding a column to a board.
 */
module Boards {
  import opened Wrappers
  import opened Api
  import opened Schema
  import Zod
  import Query
  import Ordering

  datatype BoardView = BoardView(board: Board, creatorName: string)
  datatype ColumnView = ColumnView(column: Column, tasksCount: nat)
  datatype CreateColumnBody = CreateColumnBody(title: string, position: int)

  /** `GET /boards/:boardId`: the board joined with its creator, or 404. */
  function GetBoard(t: Tables, boardId: int): (r: Result<BoardView>)
    ensures r.Ok? <==> boardId in t.boards && t.boards[boardId].createdBy in t.users
    ensures r.Err? ==> r.error == BoardNotFound
    ensures r.Ok? ==> r.value == BoardView(t.boards[boardId], t.users[t.boards[boardId].createdBy].name)
  {
    var rows := if boardId in t.boards then [t.boards[boardId]] else [];
    var joined := Query.Join(rows, (b: Board) => b.createdBy, t.users);
    if |joined| == 0 then Err(BoardNotFound)
    else Ok(BoardView(joined[0].0, joined[0].1.name))
  }

  /** In a consistent store a board is found exactly when it exists. */
  lemma GetBoardFound(t: Tables, boardId: int)
    requires Consistent(t)
    ensures GetBoard(t, boardId).Ok? <==> boardId in t.boards
  {
  }

  /** `(SELECT COUNT(*) FROM tasks WHERE column_id = ?)`. */
  function TasksCount(t: Tables, columnId: int): (n: nat)
    ensures n <= |t.tasks|
    ensures n == 0 <==> forall k :: k in t.tasks ==> t.tasks[k].columnId != columnId
  {
    var ids := set k | k in t.tasks && t.tasks[k].columnId == columnId;
    assert ids <= t.tasks.Keys;
    assert t.tasks.Keys == ids + (t.tasks.Keys - ids) && ids * (t.tasks.Keys - ids) == {};
    assert (exists k :: k in t.tasks && t.tasks[k].columnId == columnId) ==> |ids| > 0 by {
      if k :| k in t.tasks && t.tasks[k].columnId == columnId {
        assert k in ids;
      }
    }
    |ids|
  }

  /** `ORDER BY c.position`, rows with equal positions by id. */
  function ColumnRank(c: Column): Ordering.Rank {
    (Ordering.Num(c.position), c.id)
  }

  /** `SELECT c.* FROM columns c WHERE c.board_id = ? ORDER BY c.position`. */
  function BoardColumns(t: Tables, boardId: int): seq<Column> {
    Ordering.SortBy(Query.Select(t.columns, t.columnSeq, (c: Column) => c.boardId == boardId), ColumnRank, false)
  }

  /** The ordered rows are the selected rows, in non-decreasing position. */
  lemma BoardColumnsFacts(t: Tables, boardId: int)
    ensures forall c :: c in BoardColumns(t, boardId) <==>
      c in Query.Select(t.columns, t.columnSeq, (c: Column) => c.boardId == boardId)
    ensures forall i, j :: 0 <= i < j < |BoardColumns(t, boardId)| ==>
      BoardColumns(t, boardId)[i].position <= BoardColumns(t, boardId)[j].position
  {
    var rows := Query.Select(t.columns, t.columnSeq, (c: Column) => c.boardId == boardId);
    var sorted := BoardColumns(t, boardId);
    Ordering.SortBySorted(rows, ColumnRank, false);
    Ordering.SortByMembers(rows, ColumnRank, false);
    forall i, j | 0 <= i < j < |sorted|
      ensures sorted[i].position <= sorted[j].position
    {
      assert Ordering.NotAfter(ColumnRank(sorted[i]), ColumnRank(sorted[j]), false);
    }
  }

  /**
   * `GET /boards/:boardId/columns`: the board's columns in non-decreasing position, each
   * with the number of tasks it holds.
   */
  function ListColumns(t: Tables, boardId: int): (r: seq<ColumnView>)
    ensures forall i :: 0 <= i < |r| ==>
      r[i].column.boardId == boardId && r[i].column in t.columns.Values &&
      r[i].tasksCount == TasksCount(t, r[i].column.id)
    ensures forall i, j :: 0 <= i < j < |r| ==> r[i].column.position <= r[j].column.position
  {
    var sorted := BoardColumns(t, boardId);
    BoardColumnsFacts(t, boardId);
    assert forall c :: c in sorted ==> c.boardId == boardId && c in t.columns.Values;
    seq(|sorted|, i requires 0 <= i < |sorted| => ColumnView(sorted[i], TasksCount(t, sorted[i].id)))
  }

  /**
   * In a consistent store every column of the board is listed; a board that does not
   * exist lists no columns rather than answering 404.
   */
  lemma ListColumnsExact(t: Tables, boardId: int)
    requires Consistent(t)
    ensures forall k :: k in t.columns && t.columns[k].boardId == boardId ==>
      exists i :: 0 <= i < |ListColumns(t, boardId)| && ListColumns(t, boardId)[i].column == t.columns[k]
    ensures boardId !in t.boards ==> ListColumns(t, boardId) == []
  {
    var r := ListColumns(t, boardId);
    BoardColumnsFacts(t, boardId);
    forall k | k in t.columns && t.columns[k].boardId == boardId
      ensures exists i :: 0 <= i < |r| && r[i].column == t.columns[k]
    {
      var sorted := BoardColumns(t, boardId);
      assert t.columns[k] in sorted;
      var i :| 0 <= i < |sorted| && sorted[i] == t.columns[k];
      assert r[i].column == t.columns[k];
    }
    if boardId !in t.boards {
      Query.SelectNone(t.columns, t.columnSeq, (c: Column) => c.boardId == boardId);
    }
  }

  /**
   * In a consistent store the listing has one entry per column of the board; with
   * `ListColumnsExact`, every column of the board appears exactly once.
   */
  lemma ListColumnsCount(t: Tables, boardId: int)
    requires Consistent(t)
    ensures |ListColumns(t, boardId)| == |set k | k in t.columns && t.columns[k].boardId == boardId|
  {
    var rows := Query.Select(t.columns, t.columnSeq, (c: Column) => c.boardId == boardId);
    var sorted := BoardColumns(t, boardId);
    Query.SelectCount(t.columns, t.columnSeq, (c: Column) => c.boardId == boardId);
    BoardKeysSelected(t, boardId);
    assert |sorted| == |multiset(sorted)| == |multiset(rows)| == |rows|;
  }

  /** With every rowid within its counter, the rowid scan keeps exactly the board's column ids. */
  lemma BoardKeysSelected(t: Tables, boardId: int)
    requires RowIdsInRange(t)
    ensures Query.SelectedKeys(t.columns, t.columnSeq, (c: Column) => c.boardId == boardId) ==
      set k | k in t.columns && t.columns[k].boardId == boardId
  {
    var p := (c: Column) => c.boardId == boardId;
    forall k | k in t.columns && t.columns[k].boardId == boardId
      ensures k in Query.SelectedKeys(t.columns, t.columnSeq, p)
    {
      assert 1 <= k <= t.columnSeq;
    }
  }

  /** `createColumnSchema`: a non-empty title and an integer position of at least 0. */
  function ParseCreateColumn(body: Zod.Body): (r: Result<CreateColumnBody>)
    ensures r.Ok? <==>
      && Zod.Get(body, "title").Text? && |Zod.Get(body, "title").s| >= 1
      && Zod.Get(body, "position").Number? && Zod.IsInteger(Zod.Get(body, "position").x)
      && Zod.Get(body, "position").x >= 0.0
    ensures r.Ok? ==>
      && r.value.title == Zod.Get(body, "title").s
      && r.value.position as real == Zod.Get(body, "position").x && r.value.position >= 0
    ensures r.Err? ==>
      && r.error.code == BadRequest && r.error.message == "Validation failed"
      && 1 <= |r.error.details| <= 3
      && forall i :: 0 <= i < |r.error.details| ==> r.error.details[i] in ["title", "position"]
    ensures r.Err? ==> ("title" in r.error.details <==> !(Zod.Get(body, "title").Text? && |Zod.Get(body, "title").s| >= 1))
    ensures r.Err? ==> ("position" in r.error.details <==> !(Zod.Get(body, "position").Number? && Zod.IsInteger(Zod.Get(body, "position").x) && Zod.Get(body, "position").x >= 0.0))
  {
    var title, position := Zod.Get(body, "title"), Zod.Get(body, "position");
    var issues := Zod.Issues("title", Zod.StringMinIssues(title, 1))
      + Zod.Issues("position", Zod.IntMinIssues(position, 0));
    if issues == [] then Ok(CreateColumnBody(title.s, Zod.ToInt(position.x)))
    else Err(ValidationFailed(issues))
  }

  /**
   * `POST /boards/:boardId/columns`: validation, then one insert. There is no existence
   * check: a missing board fails the foreign key and surfaces as the 500 answer.
   */
  method CreateColumn(db: Database, boardId: int, body: Zod.Body, now: Timestamp) returns (r: Result<Column>)
    requires db.Valid()
    modifies db
    ensures db.Valid()
    ensures ParseCreateColumn(body).Err? ==> r == Err(ParseCreateColumn(body).error) && db.State() == old(db.State())
    ensures ParseCreateColumn(body).Ok? && boardId !in old(db.boards) ==>
      r == Err(InternalError) && db.State() == old(db.State())
    ensures ParseCreateColumn(body).Ok? && boardId in old(db.boards) ==>
      var b := ParseCreateColumn(body).value;
      var id := old(db.columnSeq) + 1;
      && r == Ok(Column(id, boardId, b.title, b.position, now))
      && db.State() == old(db.State()).(columns := old(db.columns)[id := r.value], columnSeq := id)
  {
    var parsed := ParseCreateColumn(body);
    if parsed.Err? {
      return Err(parsed.error);
    }
    var outcome := db.InsertColumn(boardId, parsed.value.title, parsed.value.position, now);
    if outcome.Rejected? {
      return Err(InternalError);
    }
    r := Ok(db.columns[outcome.id]);
  }
}
