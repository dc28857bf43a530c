/**
 * The page arithmetic of the task listing: `page` and `limit` from the query string with
 * their `|| 1` and `|| 10` fallbacks, the offset of a page, and the number of pages.
 */
module Pagination {
  import opened Wrappers
  import Query

  /**
   * `parseInt(req.query.page) || 1`; `None` stands for `NaN` (a missing or unreadable
   * value), and `NaN` and `0` are both falsy.
   */
  function PageOf(page: Option<int>): (r: int)
    ensures r != 0
    ensures page.Some? && page.value != 0 ==> r == page.value
    ensures page.None? || page.value == 0 ==> r == 1
  {
    if page.Some? && page.value != 0 then page.value else 1
  }

  /** `parseInt(req.query.limit) || 10`. */
  function LimitOf(limit: Option<int>): (r: int)
    ensures r != 0
    ensures limit.Some? && limit.value != 0 ==> r == limit.value
    ensures limit.None? || limit.value == 0 ==> r == 10
  {
    if limit.Some? && limit.value != 0 then limit.value else 10
  }

  /** `(page - 1) * limit`. */
  function Offset(page: int, limit: int): (r: int)
    ensures page >= 1 && limit >= 0 ==> r >= 0
  {
    (page - 1) * limit
  }

  /** Page 1 starts at row 0 and each page starts `limit` rows after the one before. */
  lemma OffsetSteps(page: int, limit: int)
    ensures Offset(1, limit) == 0
    ensures Offset(page + 1, limit) == Offset(page, limit) + limit
  {
  }

  /** Euclidean division by a positive divisor brackets the dividend. */
  lemma DivBracket(a: int, b: int)
    requires b > 0
    ensures (a / b) * b <= a < (a / b) * b + b
  {
  }

  /**
   * `Math.ceil(total / limit)` for a non-zero integer limit: the least integer not below
   * the quotient.
   */
  function TotalPages(total: nat, limit: int): (r: int)
    requires limit != 0
    ensures limit > 0 ==> (r - 1) * limit < total <= r * limit
    ensures limit < 0 ==> r * limit <= total < (r - 1) * limit
  {
    if limit > 0 then
      var q := (total + limit - 1) / limit;
      DivBracket(total + limit - 1, limit);
      assert (q - 1) * limit == q * limit - limit;
      q
    else
      var m := -limit;
      var q := total / m;
      DivBracket(total, m);
      assert (-q) * limit == q * m;
      assert (-q - 1) * limit == q * m + m;
      -q
  }

  /** Nothing to list is zero pages; anything to list is at least one page. */
  lemma TotalPagesBounds(total: nat, limit: int)
    requires limit > 0
    ensures TotalPages(total, limit) >= 0
    ensures total == 0 <==> TotalPages(total, limit) == 0
  {
    var n := total + limit - 1;
    assert n >= 0;
    assert TotalPages(total, limit) == n / limit;
    if total == 0 {
      assert n < limit;
    }
  }

  /** Pages 1..n of a listing, one after the other. */
  function Pages<T>(s: seq<T>, limit: int, n: nat): seq<T> {
    if n == 0 then [] else Pages(s, limit, n - 1) + Query.Window(s, Offset(n, limit), limit)
  }

  /** The first n pages are the first n * limit rows. */
  lemma {:induction false} PagesArePrefix<T>(s: seq<T>, limit: int, n: nat)
    requires limit > 0
    ensures Pages(s, limit, n) == s[..if n * limit <= |s| then n * limit else |s|]
  {
    if n > 0 {
      PagesArePrefix(s, limit, n - 1);
      var a := if (n - 1) * limit <= |s| then (n - 1) * limit else |s|;
      var b := if n * limit <= |s| then n * limit else |s|;
      assert n * limit == (n - 1) * limit + limit;
      var k := (n - 1) * limit;
      assert Offset(n, limit) == k;
      assert k >= 0;
      Query.WindowIsSlice(s, k, limit);
      assert Query.Window(s, k, limit) == s[a..b];
      assert s[..a] + s[a..b] == s[..b];
    }
  }

  /** Pages 1..TotalPages together are the whole listing, each row once, in order. */
  lemma PagesCoverListing<T>(s: seq<T>, limit: int)
    requires limit > 0
    ensures Pages(s, limit, TotalPages(|s|, limit)) == s
  {
    TotalPagesBounds(|s|, limit);
    PagesArePrefix(s, limit, TotalPages(|s|, limit));
  }
}
