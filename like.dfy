/**
 * SQLite's `LIKE` with no ESCAPE clause: `%` matches any run of characters, `_` any one
 * character, and other characters match ignoring ASCII case only.
 */
module Like {

  /** ASCII lower-casing; every other character is left alone. */
  function Fold(c: char): char {
    if 'A' <= c <= 'Z' then (c as int + 32) as char else c
  }

  /** `text LIKE pattern`. */
  predicate Like(pattern: string, text: string)
    decreases |pattern| + |text|
  {
    if |pattern| == 0 then |text| == 0
    else if pattern[0] == '%' then Like(pattern[1..], text) || (|text| > 0 && Like(pattern, text[1..]))
    else |text| > 0 && (pattern[0] == '_' || Fold(pattern[0]) == Fold(text[0])) && Like(pattern[1..], text[1..])
  }

  /** The two strings are equal up to ASCII case. */
  predicate FoldEq(a: string, b: string) {
    |a| == |b| && forall i :: 0 <= i < |a| ==> Fold(a[i]) == Fold(b[i])
  }

  /** `s` occurs in `text` at index `i`, ignoring ASCII case. */
  predicate OccursFoldedAt(text: string, s: string, i: int) {
    0 <= i <= |text| - |s| && FoldEq(text[i..i + |s|], s)
  }

  /** `s` occurs in `text`, ignoring ASCII case. */
  predicate ContainsFolded(text: string, s: string) {
    exists i :: 0 <= i <= |text| && OccursFoldedAt(text, s, i)
  }

  /** `s` holds neither wildcard. */
  predicate Literal(s: string) {
    forall i :: 0 <= i < |s| ==> s[i] != '%' && s[i] != '_'
  }

  /** A pattern without wildcards matches exactly the texts equal to it up to ASCII case. */
  lemma {:induction false} LiteralMatchesFoldEq(pattern: string, text: string)
    requires Literal(pattern)
    ensures Like(pattern, text) <==> FoldEq(pattern, text)
    decreases |pattern|
  {
    if |pattern| > 0 && |text| > 0 {
      LiteralMatchesFoldEq(pattern[1..], text[1..]);
    }
  }

  lemma {:induction false} PercentMatchesAll(text: string)
    ensures Like("%", text)
    decreases |text|
  {
    if |text| > 0 {
      PercentMatchesAll(text[1..]);
    }
  }

  /** A literal followed by `%` matches exactly the texts that start with it. */
  lemma {:induction false} LiteralPrefix(s: string, text: string)
    requires Literal(s)
    ensures Like(s + "%", text) <==> |s| <= |text| && FoldEq(text[..|s|], s)
    decreases |s|
  {
    if |s| == 0 {
      assert s + "%" == "%";
      PercentMatchesAll(text);
    } else {
      var p := s + "%";
      assert p[0] == s[0] && p[1..] == s[1..] + "%";
      LiteralPrefix(s[1..], if |text| > 0 then text[1..] else text);
      if |s| <= |text| && Fold(s[0]) == Fold(text[0]) && FoldEq(text[1..][..|s| - 1], s[1..]) {
        forall i | 0 <= i < |s| ensures Fold(text[..|s|][i]) == Fold(s[i]) {
          if i > 0 {
            assert text[..|s|][i] == text[1..][..|s| - 1][i - 1];
          }
        }
      }
      if |s| <= |text| && FoldEq(text[..|s|], s) {
        forall i | 0 <= i < |s| - 1 ensures Fold(text[1..][..|s| - 1][i]) == Fold(s[1..][i]) {
          assert text[1..][..|s| - 1][i] == text[..|s|][i + 1];
        }
      }
    }
  }

  /** A leading `%` lets the rest of the pattern match any suffix. */
  lemma {:induction false} LeadingPercent(q: string, text: string)
    ensures Like("%" + q, text) <==> exists k :: 0 <= k <= |text| && Like(q, text[k..])
    decreases |text|
  {
    var p := "%" + q;
    assert p[1..] == q;
    assert text[0..] == text;
    if |text| > 0 {
      LeadingPercent(q, text[1..]);
      if Like(p, text[1..]) {
        var k :| 0 <= k <= |text[1..]| && Like(q, text[1..][k..]);
        assert text[1..][k..] == text[k + 1..];
      }
      if exists k :: 0 <= k <= |text| && Like(q, text[k..]) {
        var k :| 0 <= k <= |text| && Like(q, text[k..]);
        if k > 0 {
          assert text[1..][k - 1..] == text[k..];
        }
      }
    }
  }

  /**
   * For a search without wildcards, `LIKE '%search%'` is case-insensitive (ASCII)
   * substring containment.
   */
  lemma SearchPatternIsContainment(s: string, text: string)
    requires Literal(s)
    ensures Like("%" + s + "%", text) <==> ContainsFolded(text, s)
  {
    assert "%" + s + "%" == "%" + (s + "%");
    LeadingPercent(s + "%", text);
    forall k | 0 <= k <= |text|
      ensures Like(s + "%", text[k..]) <==> OccursFoldedAt(text, s, k)
    {
      LiteralPrefix(s, text[k..]);
      if k <= |text| - |s| {
        assert text[k..][..|s|] == text[k..k + |s|];
      }
    }
  }
}
