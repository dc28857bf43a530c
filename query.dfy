/**
 * The SQL query semantics the handlers use, over tables keyed by rowid: a rowid-ordered
 * scan with a WHERE filter, an inner JOIN on a foreign key, and LIMIT/OFFSET.
 */
module Query {

  /**
   * `SELECT * FROM m WHERE p` as a scan of rowids 1..hi in ascending order (the order
   * SQLite visits a table or an index on a foreign key).
   */
  function Select<T>(m: map<int, T>, hi: int, p: T -> bool): (r: seq<T>)
    ensures forall x :: x in r ==> p(x) && exists k :: 1 <= k <= hi && k in m && m[k] == x
    ensures forall k :: 1 <= k <= hi && k in m && p(m[k]) ==> m[k] in r
    decreases hi
  {
    if hi < 1 then [] else Select(m, hi - 1, p) + (if hi in m && p(m[hi]) then [m[hi]] else [])
  }

  /** The rowids of the rows the query selects. */
  function SelectedKeys<T>(m: map<int, T>, hi: int, p: T -> bool): set<int> {
    set k | k in m && 1 <= k <= hi && p(m[k])
  }

  /** `SELECT COUNT(*) ... WHERE p` counts exactly the rows whose rowid the filter keeps. */
  lemma {:induction false} SelectCount<T>(m: map<int, T>, hi: int, p: T -> bool)
    ensures |Select(m, hi, p)| == |SelectedKeys(m, hi, p)|
    decreases hi
  {
    if hi < 1 {
      assert SelectedKeys(m, hi, p) == {};
    } else {
      SelectCount(m, hi - 1, p);
      SelectedKeysStep(m, hi, p);
    }
  }

  /** Raising the scan bound by one adds rowid `hi` exactly when the filter keeps that row. */
  lemma SelectedKeysStep<T>(m: map<int, T>, hi: int, p: T -> bool)
    requires hi >= 1
    ensures hi !in SelectedKeys(m, hi - 1, p)
    ensures SelectedKeys(m, hi, p) == SelectedKeys(m, hi - 1, p) + (if hi in m && p(m[hi]) then {hi} else {})
  {
    var prev, cur := SelectedKeys(m, hi - 1, p), SelectedKeys(m, hi, p);
    forall k | k in cur ensures k in prev || k == hi {
    }
  }

  /** A filter no row up to `hi` passes selects nothing. */
  lemma {:induction false} SelectNone<T>(m: map<int, T>, hi: int, p: T -> bool)
    requires forall k :: k in m && 1 <= k <= hi ==> !p(m[k])
    ensures Select(m, hi, p) == []
    decreases hi
  {
    if hi >= 1 {
      SelectNone(m, hi - 1, p);
    }
  }

  /** Two filters that agree on every row select the same rows. */
  lemma {:induction false} SelectSameFilter<T>(m: map<int, T>, hi: int, p: T -> bool, q: T -> bool)
    requires forall k :: k in m ==> p(m[k]) == q(m[k])
    ensures Select(m, hi, p) == Select(m, hi, q)
    decreases hi
  {
    if hi >= 1 {
      SelectSameFilter(m, hi - 1, p, q);
    }
  }

  /**
   * `rows JOIN parents ON fk(row) = parents.id`: each row paired with the row it refers
   * to; a row whose reference dangles is dropped.
   */
  function Join<T, U>(rows: seq<T>, fk: T -> int, parents: map<int, U>): (r: seq<(T, U)>)
    ensures forall i :: 0 <= i < |r| ==>
      r[i].0 in rows && fk(r[i].0) in parents && parents[fk(r[i].0)] == r[i].1
    ensures forall x :: x in rows && fk(x) in parents ==> (x, parents[fk(x)]) in r
    ensures (forall x :: x in rows ==> fk(x) in parents) ==> |r| == |rows|
  {
    if rows == [] then []
    else
      var rest := Join(rows[1..], fk, parents);
      assert forall x :: x in rows[1..] ==> x in rows;
      if fk(rows[0]) in parents then [(rows[0], parents[fk(rows[0])])] + rest else rest
  }

  /** When no reference dangles the join keeps every row, in order. */
  lemma {:induction false} JoinAllResolve<T, U>(rows: seq<T>, fk: T -> int, parents: map<int, U>)
    requires forall x :: x in rows ==> fk(x) in parents
    ensures |Join(rows, fk, parents)| == |rows|
    ensures forall i :: 0 <= i < |rows| ==> Join(rows, fk, parents)[i] == (rows[i], parents[fk(rows[i])])
  {
    if rows != [] {
      assert forall x :: x in rows[1..] ==> x in rows;
      JoinAllResolve(rows[1..], fk, parents);
    }
  }

  /** `LIMIT limit OFFSET offset`: a negative LIMIT means no limit, a negative OFFSET means 0. */
  function Window<T>(s: seq<T>, offset: int, limit: int): (r: seq<T>)
    ensures forall x :: x in r ==> x in s
    ensures 0 <= limit ==> |r| <= limit
    ensures 0 <= offset && 0 <= limit ==>
      |r| == if offset >= |s| then 0 else if offset + limit > |s| then |s| - offset else limit
    ensures 0 <= offset && 0 <= limit ==>
      forall i :: 0 <= i < |r| ==> r[i] == s[offset + i]
  {
    s[WindowStart(s, offset)..WindowEnd(s, offset, limit)]
  }

  /** Where the window starts: a negative offset counts as 0, one past the end as the end. */
  function WindowStart<T>(s: seq<T>, offset: int): (r: int)
    ensures 0 <= r <= |s|
  {
    if offset < 0 then 0 else if offset > |s| then |s| else offset
  }

  /** Where the window ends: a negative limit takes every remaining row. */
  function WindowEnd<T>(s: seq<T>, offset: int, limit: int): (r: int)
    ensures WindowStart(s, offset) <= r <= |s|
  {
    var start := WindowStart(s, offset);
    if limit < 0 || start + limit > |s| then |s| else start + limit
  }

  /** With a non-negative offset and limit the window is one contiguous slice. */
  lemma WindowIsSlice<T>(s: seq<T>, offset: int, limit: int)
    requires 0 <= offset && 0 <= limit
    ensures var start := if offset > |s| then |s| else offset;
      Window(s, offset, limit) == s[start..if start + limit > |s| then |s| else start + limit]
  {
  }
}
