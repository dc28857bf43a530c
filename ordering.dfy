/**
 * `ORDER BY` as the store evaluates it. A sort key is an INTEGER or a TEXT value;
 * integers sort before text and text compares character by character (SQLite's
 * BINARY collation). Rows with equal keys come in ascending rowid order, the order
 * of the scan that feeds the sort, so every listing has exactly one result.
 */
module Ordering {

  datatype Key = Num(n: int) | Text(s: string)

  /** Lexicographic order on strings by character code; a proper prefix comes first. */
  predicate TextLess(a: string, b: string) {
    if |a| == 0 then |b| > 0
    else if |b| == 0 then false
    else if a[0] == b[0] then TextLess(a[1..], b[1..])
    else a[0] < b[0]
  }

  predicate KeyLess(a: Key, b: Key) {
    match (a, b)
    case (Num(x), Num(y)) => x < y
    case (Num(_), Text(_)) => true
    case (Text(_), Num(_)) => false
    case (Text(x), Text(y)) => TextLess(x, y)
  }

  /** A row's place in a listing: its sort key and its rowid. */
  type Rank = (Key, int)

  /** `a` is listed before `b` under `ORDER BY key [DESC]`, equal keys by rowid. */
  predicate Precedes(a: Rank, b: Rank, desc: bool) {
    if a.0 == b.0 then a.1 < b.1
    else if desc then KeyLess(b.0, a.0)
    else KeyLess(a.0, b.0)
  }

  lemma {:induction false} TextLessIrreflexive(a: string)
    ensures !TextLess(a, a)
  {
    if |a| > 0 {
      TextLessIrreflexive(a[1..]);
    }
  }

  lemma {:induction false} TextLessAsymmetric(a: string, b: string)
    requires TextLess(a, b)
    ensures !TextLess(b, a)
  {
    if |a| > 0 && |b| > 0 && a[0] == b[0] {
      TextLessAsymmetric(a[1..], b[1..]);
    }
  }

  lemma {:induction false} TextLessTransitive(a: string, b: string, c: string)
    requires TextLess(a, b) && TextLess(b, c)
    ensures TextLess(a, c)
  {
    if |a| > 0 && |b| > 0 && |c| > 0 && a[0] == b[0] && b[0] == c[0] {
      TextLessTransitive(a[1..], b[1..], c[1..]);
    }
  }

  lemma {:induction false} TextLessTotal(a: string, b: string)
    requires a != b
    ensures TextLess(a, b) || TextLess(b, a)
  {
    if |a| > 0 && |b| > 0 && a[0] == b[0] {
      assert a == [a[0]] + a[1..] && b == [b[0]] + b[1..];
      TextLessTotal(a[1..], b[1..]);
    }
  }

  lemma KeyLessIsStrictTotal(a: Key, b: Key, c: Key)
    ensures !KeyLess(a, a)
    ensures KeyLess(a, b) ==> !KeyLess(b, a)
    ensures KeyLess(a, b) && KeyLess(b, c) ==> KeyLess(a, c)
    ensures a != b ==> KeyLess(a, b) || KeyLess(b, a)
  {
    if a.Text? {
      TextLessIrreflexive(a.s);
      if b.Text? {
        if TextLess(a.s, b.s) { TextLessAsymmetric(a.s, b.s); }
        if a.s != b.s { TextLessTotal(a.s, b.s); }
        if c.Text? && TextLess(a.s, b.s) && TextLess(b.s, c.s) { TextLessTransitive(a.s, b.s, c.s); }
      }
    }
  }

  /** `Precedes` is a strict total order on ranks. */
  lemma PrecedesIsStrictTotal(a: Rank, b: Rank, c: Rank, desc: bool)
    ensures !Precedes(a, a, desc)
    ensures Precedes(a, b, desc) ==> !Precedes(b, a, desc)
    ensures Precedes(a, b, desc) && Precedes(b, c, desc) ==> Precedes(a, c, desc)
    ensures a != b ==> Precedes(a, b, desc) || Precedes(b, a, desc)
  {
    KeyLessIsStrictTotal(a.0, b.0, c.0);
    KeyLessIsStrictTotal(b.0, c.0, a.0);
    KeyLessIsStrictTotal(c.0, a.0, b.0);
    KeyLessIsStrictTotal(c.0, b.0, a.0);
    KeyLessIsStrictTotal(b.0, a.0, c.0);
    KeyLessIsStrictTotal(a.0, c.0, b.0);
  }

  /** "Not after": `a` may stand before `b` in a sorted listing. */
  predicate NotAfter(a: Rank, b: Rank, desc: bool) {
    !Precedes(b, a, desc)
  }

  lemma NotAfterTransitive(a: Rank, b: Rank, c: Rank, desc: bool)
    requires NotAfter(a, b, desc) && NotAfter(b, c, desc)
    ensures NotAfter(a, c, desc)
  {
    PrecedesIsStrictTotal(a, b, c, desc);
    PrecedesIsStrictTotal(b, c, a, desc);
    PrecedesIsStrictTotal(c, a, b, desc);
    PrecedesIsStrictTotal(c, b, a, desc);
    PrecedesIsStrictTotal(a, c, b, desc);
    PrecedesIsStrictTotal(b, a, c, desc);
  }

  /** No row of the listing is preceded by a row listed after it. */
  ghost predicate SortedBy<T>(s: seq<T>, rank: T -> Rank, desc: bool) {
    forall i, j :: 0 <= i < j < |s| ==> NotAfter(rank(s[i]), rank(s[j]), desc)
  }

  /** Places `x` before the first row it precedes. */
  function Insert<T>(x: T, s: seq<T>, rank: T -> Rank, desc: bool): (r: seq<T>)
    ensures multiset(r) == multiset(s) + multiset{x}
  {
    if s == [] then [x]
    else if Precedes(rank(s[0]), rank(x), desc) then
      assert s == [s[0]] + s[1..];
      [s[0]] + Insert(x, s[1..], rank, desc)
    else [x] + s
  }

  /** `ORDER BY`: the rows rearranged into rank order. */
  function SortBy<T>(s: seq<T>, rank: T -> Rank, desc: bool): (r: seq<T>)
    ensures multiset(r) == multiset(s)
  {
    if s == [] then []
    else
      assert s == [s[0]] + s[1..];
      Insert(s[0], SortBy(s[1..], rank, desc), rank, desc)
  }

  lemma {:induction false} InsertSorted<T>(x: T, s: seq<T>, rank: T -> Rank, desc: bool)
    requires SortedBy(s, rank, desc)
    ensures SortedBy(Insert(x, s, rank, desc), rank, desc)
  {
    if s == [] {
    } else if Precedes(rank(s[0]), rank(x), desc) {
      var rest := s[1..];
      InsertSorted(x, rest, rank, desc);
      var tail := Insert(x, rest, rank, desc);
      assert Insert(x, s, rank, desc) == [s[0]] + tail;
      forall j | 0 <= j < |tail|
        ensures NotAfter(rank(s[0]), rank(tail[j]), desc)
      {
        assert tail[j] in multiset(tail);
        if tail[j] == x {
          PrecedesIsStrictTotal(rank(s[0]), rank(x), rank(x), desc);
        } else {
          assert tail[j] in multiset(rest);
          var i :| 0 <= i < |rest| && rest[i] == tail[j];
          assert s[i + 1] == tail[j];
        }
      }
    } else {
      forall k | 0 <= k < |s|
        ensures NotAfter(rank(x), rank(s[k]), desc)
      {
        if k > 0 {
          NotAfterTransitive(rank(x), rank(s[0]), rank(s[k]), desc);
        }
      }
    }
  }

  /** The result of `SortBy` is in rank order. */
  lemma {:induction false} SortBySorted<T>(s: seq<T>, rank: T -> Rank, desc: bool)
    ensures SortedBy(SortBy(s, rank, desc), rank, desc)
  {
    if s != [] {
      SortBySorted(s[1..], rank, desc);
      InsertSorted(s[0], SortBy(s[1..], rank, desc), rank, desc);
    }
  }

  lemma SortByMembers<T>(s: seq<T>, rank: T -> Rank, desc: bool)
    ensures forall x :: x in SortBy(s, rank, desc) <==> x in s
  {
    var r := SortBy(s, rank, desc);
    assert forall x :: x in r <==> x in multiset(r);
    assert forall x :: x in s <==> x in multiset(s);
  }

  /**
   * `ORDER BY priority DESC` compares the stored words as text, so the listing goes
   * medium, low, high: not by urgency.
   */
  lemma PriorityTextOrder(i: int, j: int, k: int)
    ensures Precedes((Text("medium"), i), (Text("low"), j), true)
    ensures Precedes((Text("low"), j), (Text("high"), k), true)
    ensures Precedes((Text("medium"), i), (Text("high"), k), true)
  {
    assert TextLess("low", "medium");
    assert TextLess("high", "low");
    assert TextLess("high", "medium");
  }
}
