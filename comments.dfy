/**
 * The comment routes: the comments of a task, oldest first, each with its author's
 * name and email, and adding a comment as the authenticated user.
 */
module Comments {
  import opened Api
  import opened Schema
  import Zod
  import Query
  import Ordering

  datatype CommentView = CommentView(comment: Comment, userName: string, userEmail: string)

  /** `FROM comments c WHERE c.task_id = ?`. */
  function TaskComments(t: Tables, taskId: int): (r: seq<Comment>)
    ensures forall c :: c in r ==> c.taskId == taskId && c in t.comments.Values
  {
    Query.Select(t.comments, t.commentSeq, OnTask(taskId))
  }

  /** `WHERE c.task_id = ?`. */
  function OnTask(taskId: int): Comment -> bool {
    (c: Comment) => c.taskId == taskId
  }

  /** `JOIN users u ON c.user_id = u.id`: the key a comment joins on. */
  function Author(c: Comment): int {
    c.userId
  }

  /** `ORDER BY c.created_at ASC`, equal times by rowid. */
  function CommentRank(): Comment -> Ordering.Rank {
    (c: Comment) => (Ordering.Num(c.createdAt), c.id)
  }

  /**
   * `GET /tasks/:taskId/comments`: the task's comments joined with their authors, in
   * creation order. There is no existence check: an absent task lists nothing.
   */
  function ListComments(t: Tables, taskId: int): (r: seq<CommentView>)
    ensures forall i :: 0 <= i < |r| ==>
      && r[i].comment.taskId == taskId && r[i].comment in t.comments.Values
      && r[i].comment.userId in t.users
      && r[i].userName == t.users[r[i].comment.userId].name
      && r[i].userEmail == t.users[r[i].comment.userId].email
  {
    var sorted := Ordering.SortBy(TaskComments(t, taskId), CommentRank(), false);
    Ordering.SortByMembers(TaskComments(t, taskId), CommentRank(), false);
    var joined := Query.Join(sorted, Author, t.users);
    seq(|joined|, i requires 0 <= i < |joined| => CommentView(joined[i].0, joined[i].1.name, joined[i].1.email))
  }

  /** With every author present, the listing is the sorted comments of the task, one view each. */
  lemma ListCommentsRows(t: Tables, taskId: int)
    requires Consistent(t)
    ensures var sorted := Ordering.SortBy(TaskComments(t, taskId), CommentRank(), false);
      var r := ListComments(t, taskId);
      |r| == |sorted| && forall i :: 0 <= i < |r| ==> r[i].comment == sorted[i]
  {
    var sorted := Ordering.SortBy(TaskComments(t, taskId), CommentRank(), false);
    Ordering.SortByMembers(TaskComments(t, taskId), CommentRank(), false);
    Query.JoinAllResolve(sorted, Author, t.users);
  }

  /** In a consistent store every comment of the task is listed. */
  lemma ListCommentsComplete(t: Tables, taskId: int)
    requires Consistent(t)
    ensures forall k :: k in t.comments && t.comments[k].taskId == taskId ==>
      exists i :: 0 <= i < |ListComments(t, taskId)| && ListComments(t, taskId)[i].comment == t.comments[k]
  {
    var all := TaskComments(t, taskId);
    var sorted := Ordering.SortBy(all, CommentRank(), false);
    var r := ListComments(t, taskId);
    ListCommentsRows(t, taskId);
    Ordering.SortByMembers(all, CommentRank(), false);
    forall k | k in t.comments && t.comments[k].taskId == taskId
      ensures exists i :: 0 <= i < |r| && r[i].comment == t.comments[k]
    {
      assert 1 <= k <= t.commentSeq;
      assert t.comments[k] in all;
      var i :| 0 <= i < |sorted| && sorted[i] == t.comments[k];
      assert r[i].comment == t.comments[k];
    }
  }

  /** The listing has one entry per comment row of the task. */
  lemma ListCommentsCount(t: Tables, taskId: int)
    requires Consistent(t)
    ensures |ListComments(t, taskId)| == |set k | k in t.comments && t.comments[k].taskId == taskId|
  {
    var all := TaskComments(t, taskId);
    var sorted := Ordering.SortBy(all, CommentRank(), false);
    ListCommentsRows(t, taskId);
    assert |sorted| == |multiset(sorted)| == |multiset(all)|;
    TaskCommentsCount(t, taskId);
  }

  /** With rowids in range, the selection holds one entry per comment row of the task. */
  lemma TaskCommentsCount(t: Tables, taskId: int)
    requires RowIdsInRange(t)
    ensures |TaskComments(t, taskId)| == |set k | k in t.comments && t.comments[k].taskId == taskId|
  {
    var p := OnTask(taskId);
    Query.SelectCount(t.comments, t.commentSeq, p);
    assert Query.SelectedKeys(t.comments, t.commentSeq, p) == set k | k in t.comments && t.comments[k].taskId == taskId;
  }

  /** Comments are listed oldest first; comments made in the same second in rowid order. */
  lemma ListCommentsAscending(t: Tables, taskId: int)
    requires Consistent(t)
    ensures var r := ListComments(t, taskId);
      forall i, j :: 0 <= i < j < |r| ==>
        && r[i].comment.createdAt <= r[j].comment.createdAt
        && (r[i].comment.createdAt == r[j].comment.createdAt ==> r[i].comment.id <= r[j].comment.id)
  {
    var sorted := Ordering.SortBy(TaskComments(t, taskId), CommentRank(), false);
    var r := ListComments(t, taskId);
    ListCommentsRows(t, taskId);
    Ordering.SortBySorted(TaskComments(t, taskId), CommentRank(), false);
    forall i, j | 0 <= i < j < |r|
      ensures && r[i].comment.createdAt <= r[j].comment.createdAt
              && (r[i].comment.createdAt == r[j].comment.createdAt ==> r[i].comment.id <= r[j].comment.id)
    {
      assert Ordering.NotAfter(CommentRank()(sorted[i]), CommentRank()(sorted[j]), false);
    }
  }

  datatype CreateCommentBody = CreateCommentBody(content: string)

  /** `createCommentSchema`: a non-empty `content`. */
  function ParseCreateComment(body: Zod.Body): (r: Result<CreateCommentBody>)
    ensures r.Ok? <==> Zod.Get(body, "content").Text? && |Zod.Get(body, "content").s| >= 1
    ensures r.Ok? ==> r.value.content == Zod.Get(body, "content").s
    ensures r.Err? ==> r.error == ValidationFailed(["content"])
  {
    var content := Zod.Get(body, "content");
    var issues := Zod.Issues("content", Zod.StringMinIssues(content, 1));
    if issues == [] then Ok(CreateCommentBody(content.s))
    else Err(ValidationFailed(issues))
  }

  /**
   * `POST /tasks/:taskId/comments`: validation, then the existence check, then one insert
   * by the authenticated user. A user id no longer in the store fails the foreign key and
   * surfaces as the 500 answer.
   */
  method CreateComment(db: Database, taskId: int, userId: int, body: Zod.Body, now: Timestamp) returns (r: Result<CommentView>)
    requires db.Valid()
    modifies db
    ensures db.Valid()
    ensures ParseCreateComment(body).Err? ==> r == Err(ParseCreateComment(body).error) && db.State() == old(db.State())
    ensures ParseCreateComment(body).Ok? && taskId !in old(db.tasks) ==>
      r == Err(TaskNotFound) && db.State() == old(db.State())
    ensures ParseCreateComment(body).Ok? && taskId in old(db.tasks) && userId !in old(db.users) ==>
      r == Err(InternalError) && db.State() == old(db.State())
    ensures ParseCreateComment(body).Ok? && taskId in old(db.tasks) && userId in old(db.users) ==>
      var id := old(db.commentSeq) + 1;
      var c := Comment(id, taskId, userId, ParseCreateComment(body).value.content, now);
      && r == Ok(CommentView(c, old(db.users)[userId].name, old(db.users)[userId].email))
      && db.State() == old(db.State()).(comments := old(db.comments)[id := c], commentSeq := id)
  {
    var parsed := ParseCreateComment(body);
    if parsed.Err? {
      return Err(parsed.error);
    }
    if taskId !in db.tasks {
      return Err(TaskNotFound);
    }
    var outcome := db.InsertComment(taskId, userId, parsed.value.content, now);
    if outcome.Rejected? {
      return Err(InternalError);
    }
    var c := db.comments[outcome.id];
    r := Ok(CommentView(c, db.users[c.userId].name, db.users[c.userId].email));
  }
}
