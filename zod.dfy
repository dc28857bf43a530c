/**
 * The request-body validation the handlers run before touching the store: a parsed JSON
 * body, the zod checks the schemas use, and the issues they raise. A schema reports one
 * issue per failed check, each naming its field, in the order the schema lists its fields.
 */
module Zod {
  import Strings

  /** A JSON value as far as the checks tell values apart; arrays and objects are `Compound`. */
  datatype Value = Undefined | Null | Bool(b: bool) | Number(x: real) | Text(s: string) | Compound

  /** A JSON object body; a field that is not present reads as `undefined`. */
  type Body = map<string, Value>

  function Get(body: Body, field: string): (v: Value)
    ensures field !in body ==> v == Undefined
  {
    if field in body then body[field] else Undefined
  }

  /** `Number.isInteger`. */
  predicate IsInteger(x: real) {
    x.Floor as real == x
  }

  predicate IsAsciiLetter(c: char) { 'a' <= c <= 'z' || 'A' <= c <= 'Z' }
  predicate IsAsciiAlnum(c: char) { IsAsciiLetter(c) || '0' <= c <= '9' }

  /** A character the local part may hold: letters, digits and `_ ' + - .`. */
  predicate LocalChar(c: char) {
    IsAsciiAlnum(c) || c == '_' || c == '\'' || c == '+' || c == '-' || c == '.'
  }

  /**
   * The part before `@`: not empty, no leading dot, no two dots in a row, and ending in
   * a letter, digit, `_`, `+` or `-`.
   */
  predicate ValidLocalPart(l: string) {
    && |l| >= 1
    && l[0] != '.'
    && (forall i :: 0 <= i < |l| ==> LocalChar(l[i]))
    && (forall i :: 0 <= i < |l| - 1 ==> !(l[i] == '.' && l[i + 1] == '.'))
    && l[|l| - 1] != '.' && l[|l| - 1] != '\''
  }

  /** A domain label before the last dot: a letter or digit, then letters, digits or `-`. */
  predicate ValidLabel(l: string) {
    && |l| >= 1
    && IsAsciiAlnum(l[0])
    && (forall i :: 0 <= i < |l| ==> IsAsciiAlnum(l[i]) || l[i] == '-')
  }

  /** The label after the last dot: at least two letters. */
  predicate ValidTopLevel(l: string) {
    |l| >= 2 && forall i :: 0 <= i < |l| ==> IsAsciiLetter(l[i])
  }

  predicate ValidDomain(d: string) {
    var labels := Strings.SplitOn(d, '.');
    && |labels| >= 2
    && (forall i :: 0 <= i < |labels| - 1 ==> ValidLabel(labels[i]))
    && ValidTopLevel(labels[|labels| - 1])
  }

  /**
   * `z.string().email()`: zod 3's pattern
   * `^(?!\.)(?!.*\.\.)([A-Z0-9_'+\-\.]*)[A-Z0-9_+-]@([A-Z0-9][A-Z0-9\-]*\.)+[A-Z]{2,}$`
   * (case-insensitive), written out part by part.
   */
  predicate ValidEmail(s: string) {
    var parts := Strings.SplitOn(s, '@');
    |parts| == 2 && ValidLocalPart(parts[0]) && ValidDomain(parts[1])
  }

  /** `z.string()`: one issue unless the value is a string. */
  function StringIssues(v: Value): (n: nat)
    ensures n <= 1
    ensures n == 0 <==> v.Text?
  {
    if v.Text? then 0 else 1
  }

  /** `z.string().min(k)`: a type issue, or a length issue. */
  function StringMinIssues(v: Value, k: nat): (n: nat)
    ensures n <= 1
    ensures n == 0 <==> v.Text? && |v.s| >= k
  {
    if !v.Text? then 1 else if |v.s| < k then 1 else 0
  }

  /** `z.string().email()`. */
  function EmailIssues(v: Value): (n: nat)
    ensures n <= 1
    ensures n == 0 <==> v.Text? && ValidEmail(v.s)
  {
    if !v.Text? then 1 else if !ValidEmail(v.s) then 1 else 0
  }

  /** `z.number().int()`. */
  function IntIssues(v: Value): (n: nat)
    ensures n <= 1
    ensures n == 0 <==> v.Number? && IsInteger(v.x)
  {
    if !v.Number? then 1 else if !IsInteger(v.x) then 1 else 0
  }

  /**
   * `z.number().int().min(k)`: a type issue alone, or else each of the two checks that
   * fails raises its own issue (zod keeps checking after a failed refinement).
   */
  function IntMinIssues(v: Value, k: int): (n: nat)
    ensures n <= 2
    ensures n == 0 <==> v.Number? && IsInteger(v.x) && v.x >= k as real
    ensures n == 2 <==> v.Number? && !IsInteger(v.x) && v.x < k as real
    ensures !v.Number? ==> n == 1
  {
    if !v.Number? then 1
    else (if IsInteger(v.x) then 0 else 1) + (if v.x < k as real then 1 else 0)
  }

  /** `z.enum(options)`. */
  function EnumIssues(v: Value, options: seq<string>): (n: nat)
    ensures n <= 1
    ensures n == 0 <==> v.Text? && v.s in options
  {
    if v.Text? && v.s in options then 0 else 1
  }

  /** `.optional()`: `undefined` passes, anything else is checked. */
  function Optional(v: Value, issues: nat): (n: nat)
    ensures v.Undefined? ==> n == 0
    ensures !v.Undefined? ==> n == issues
  {
    if v.Undefined? then 0 else issues
  }

  /** The issue paths a field contributes to `error.errors`: its name once per issue. */
  function Issues(field: string, count: nat): (r: seq<string>)
    ensures |r| == count
    ensures forall i :: 0 <= i < |r| ==> r[i] == field
    ensures forall x :: x in r <==> count > 0 && x == field
  {
    if count == 0 then [] else [field] + Issues(field, count - 1)
  }

  function ToInt(x: real): (i: int)
    requires IsInteger(x)
    ensures i as real == x
  {
    x.Floor
  }

  /** A valid address holds exactly one `@`, with something on either side. */
  lemma {:induction false} EmailHasOneAt(s: string)
    requires ValidEmail(s)
    ensures exists i :: 0 < i < |s| - 1 && s[i] == '@' && '@' !in s[..i] && '@' !in s[i + 1..]
  {
    var parts := Strings.SplitOn(s, '@');
    Strings.SplitJoinInverse(s, '@');
    Strings.SplitPiecesHaveNoSeparator(s, '@');
    var i := |parts[0]|;
    assert Strings.JoinOn(parts, '@') == parts[0] + ['@'] + parts[1];
    assert s[..i] == parts[0];
    assert s[i + 1..] == parts[1];
    assert Strings.SplitOn(parts[1], '.') != [""];
  }

  /** An address `local@label.top` with well-formed pieces is accepted. */
  lemma {:induction false} SimpleAddressValid(local: string, name: string, top: string)
    requires ValidLocalPart(local) && ValidLabel(name) && ValidTopLevel(top)
    ensures ValidEmail(local + "@" + name + "." + top)
  {
    var domain := name + "." + top;
    assert '.' !in name && '.' !in top && '@' !in top by {
      assert forall i :: 0 <= i < |name| ==> IsAsciiAlnum(name[i]) || name[i] == '-';
    }
    assert '@' !in local;
    assert '@' !in domain by {
      assert forall i :: 0 <= i < |domain| ==> domain[i] == '.' || domain[i] in name || domain[i] in top;
    }
    Strings.SplitAfterPiece(name, '.', top);
    Strings.SplitWithoutSeparator(top, '.');
    assert domain == name + ['.'] + top;
    Strings.SplitAfterPiece(local, '@', domain);
    Strings.SplitWithoutSeparator(domain, '@');
    assert local + "@" + name + "." + top == local + ['@'] + domain;
  }

  /** The address the seed creates is accepted. */
  lemma DemoAddressValid()
    ensures ValidEmail("demo@example.com")
  {
    assert ValidLocalPart("demo") && ValidLabel("example") && ValidTopLevel("com");
    SimpleAddressValid("demo", "example", "com");
    assert "demo" + "@" + "example" + "." + "com" == "demo@example.com";
  }

  /** The second demo account's address is accepted. */
  lemma JohnAddressValid()
    ensures ValidEmail("john@example.com")
  {
    assert ValidLocalPart("john") && ValidLabel("example") && ValidTopLevel("com");
    SimpleAddressValid("john", "example", "com");
    assert "john" + "@" + "example" + "." + "com" == "john@example.com";
  }

  /** A string without `@` is refused. */
  lemma NoAtRefused(s: string)
    requires '@' !in s
    ensures !ValidEmail(s)
  {
    Strings.SplitWithoutSeparator(s, '@');
  }
}
