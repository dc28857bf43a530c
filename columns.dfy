/**
 * The column routes: a partial update that writes only the fields the body supplies
 * (and nothing at all when it supplies none), and deletion with its cascade.
 */
module Columns {
  import opened Wrappers
  import opened Api
  import opened Schema
  import Zod

  datatype UpdateColumnBody = UpdateColumnBody(title: Option<string>, position: Option<int>)

  /** `updateColumnSchema`: an optional non-empty title and an optional integer position of at least 0. */
  function ParseUpdateColumn(body: Zod.Body): (r: Result<UpdateColumnBody>)
    ensures r.Ok? <==>
      && (Zod.Get(body, "title").Undefined? ||
          (Zod.Get(body, "title").Text? && |Zod.Get(body, "title").s| >= 1))
      && (Zod.Get(body, "position").Undefined? ||
          (Zod.Get(body, "position").Number? && Zod.IsInteger(Zod.Get(body, "position").x) &&
           Zod.Get(body, "position").x >= 0.0))
    ensures r.Ok? ==>
      && (r.value.title.Some? <==> !Zod.Get(body, "title").Undefined?)
      && (r.value.title.Some? ==> r.value.title.value == Zod.Get(body, "title").s)
      && (r.value.position.Some? <==> !Zod.Get(body, "position").Undefined?)
      && (r.value.position.Some? ==>
            r.value.position.value as real == Zod.Get(body, "position").x && r.value.position.value >= 0)
    ensures r.Err? ==>
      && r.error.code == BadRequest && r.error.message == "Validation failed"
      && 1 <= |r.error.details| <= 3
      && forall i :: 0 <= i < |r.error.details| ==> r.error.details[i] in ["title", "position"]
    ensures r.Err? ==> ("title" in r.error.details <==> !Zod.Get(body, "title").Undefined? && !(Zod.Get(body, "title").Text? && |Zod.Get(body, "title").s| >= 1))
    ensures r.Err? ==> ("position" in r.error.details <==> !Zod.Get(body, "position").Undefined? && !(Zod.Get(body, "position").Number? && Zod.IsInteger(Zod.Get(body, "position").x) && Zod.Get(body, "position").x >= 0.0))
  {
    var title, position := Zod.Get(body, "title"), Zod.Get(body, "position");
    var issues := Zod.Issues("title", Zod.Optional(title, Zod.StringMinIssues(title, 1)))
      + Zod.Issues("position", Zod.Optional(position, Zod.IntMinIssues(position, 0)));
    if issues != [] then Err(ValidationFailed(issues))
    else
      Ok(UpdateColumnBody(
        if title.Undefined? then None else Some(title.s),
        if position.Undefined? then None else Some(Zod.ToInt(position.x))))
  }

  /** The column with each supplied field replaced and everything else kept. */
  function Patched(c: Column, b: UpdateColumnBody): Column {
    c.(title := b.title.GetOr(c.title), position := b.position.GetOr(c.position))
  }

  /** A patch changes only the fields it supplies, and applying it twice is applying it once. */
  lemma PatchedChangesOnlySupplied(c: Column, b: UpdateColumnBody)
    ensures Patched(c, b).id == c.id && Patched(c, b).boardId == c.boardId && Patched(c, b).createdAt == c.createdAt
    ensures b.title.None? ==> Patched(c, b).title == c.title
    ensures b.title.Some? ==> Patched(c, b).title == b.title.value
    ensures b.position.None? ==> Patched(c, b).position == c.position
    ensures b.position.Some? ==> Patched(c, b).position == b.position.value
    ensures b.title.None? && b.position.None? ==> Patched(c, b) == c
    ensures Patched(Patched(c, b), b) == Patched(c, b)
  {
  }

  /**
   * The assignments the handler collects, one per supplied field in the order title,
   * position, set exactly the patched fields; there are none when no field is supplied.
   */
  lemma AssignmentsPatch(c: Column, b: UpdateColumnBody, updates: seq<ColumnSet>)
    requires updates == (if b.title.Some? then [SetColumnTitle(b.title.value)] else [])
                      + (if b.position.Some? then [SetPosition(b.position.value)] else [])
    ensures ApplyColumnSets(c, updates) == Patched(c, b)
    ensures updates == [] <==> b.title.None? && b.position.None?
  {
    var u1 := if b.title.Some? then [SetColumnTitle(b.title.value)] else [];
    if b.position.Some? {
      assert updates[..|updates| - 1] == u1;
      if b.title.Some? {
        assert u1[..0] == [];
      }
    } else {
      assert updates == u1;
      if b.title.Some? {
        assert u1[..0] == [];
      }
    }
  }

  /**
   * `PATCH /columns/:columnId`: validation, then the existence check, then an `UPDATE`
   * whose assignments are collected one supplied field at a time; with no field there is
   * no `UPDATE` at all. The answer is the row as read back.
   */
  method UpdateColumn(db: Database, columnId: int, body: Zod.Body) returns (r: Result<Column>)
    requires db.Valid()
    modifies db
    ensures db.Valid()
    ensures ParseUpdateColumn(body).Err? ==> r == Err(ParseUpdateColumn(body).error) && db.State() == old(db.State())
    ensures ParseUpdateColumn(body).Ok? && columnId !in old(db.columns) ==>
      r == Err(ColumnNotFound) && db.State() == old(db.State())
    ensures ParseUpdateColumn(body).Ok? && columnId in old(db.columns) ==>
      && r == Ok(Patched(old(db.columns)[columnId], ParseUpdateColumn(body).value))
      && db.State() == old(db.State()).(columns := old(db.columns)[columnId := r.value])
    ensures ParseUpdateColumn(body) == Ok(UpdateColumnBody(None, None)) ==> db.State() == old(db.State())
  {
    var parsed := ParseUpdateColumn(body);
    if parsed.Err? {
      return Err(parsed.error);
    }
    var b := parsed.value;
    if columnId !in db.columns {
      return Err(ColumnNotFound);
    }
    ghost var c := db.columns[columnId];
    var updates: seq<ColumnSet> := [];
    if b.title.Some? {
      updates := updates + [SetColumnTitle(b.title.value)];
    }
    if b.position.Some? {
      updates := updates + [SetPosition(b.position.value)];
    }
    AssignmentsPatch(c, b, updates);
    if |updates| > 0 {
      var _ := db.UpdateColumn(columnId, updates);
    }
    r := Ok(db.columns[columnId]);
  }

  /**
   * `DELETE /columns/:columnId`: 404 for an absent column; otherwise the column goes, and
   * with it its tasks and their comments.
   */
  method DeleteColumn(db: Database, columnId: int) returns (r: Result<NoContent>)
    requires db.Valid()
    modifies db
    ensures db.Valid()
    ensures columnId !in old(db.columns) ==> r == Err(ColumnNotFound) && db.State() == old(db.State())
    ensures columnId in old(db.columns) ==>
      r == Ok(NoContent) && db.State() == DeleteColumnRows(old(db.State()), columnId)
  {
    if columnId !in db.columns {
      return Err(ColumnNotFound);
    }
    var _ := db.DeleteColumn(columnId);
    r := Ok(NoContent);
  }
}
