/**
 * Signed, expiring bearer tokens in the manner of JSON Web Tokens (RFC 7519): the claims
 * are a user id, the issue time `iat` and the expiry `exp` (RFC 7519, section 4.1.4), all in seconds.
 * The serialisation is a dot-joined list of decimals and the signature a keyed fingerprint
 * standing in for HMAC; verification checks shape, signature and expiry, and reports every
 * failure the same way.
 */
module Jwt {
  import opened Wrappers
  import Strings

  datatype Claims = Claims(userId: nat, iat: nat, exp: nat)

  predicate IsDigit(c: char) { '0' <= c <= '9' }

  predicate AllDigits(s: string) { forall i :: 0 <= i < |s| ==> IsDigit(s[i]) }

  function DigitChar(d: nat): (c: char)
    requires d < 10
    ensures IsDigit(c) && c as int - '0' as int == d
  {
    ('0' as int + d) as char
  }

  /** The decimal spelling of `n`, without leading zeros. */
  function Digits(n: nat): (s: string)
    ensures |s| >= 1 && AllDigits(s)
  {
    if n < 10 then [DigitChar(n)] else Digits(n / 10) + [DigitChar(n % 10)]
  }

  /** The number a string of decimal digits spells. */
  function DigitsValue(s: string): nat
    requires AllDigits(s)
  {
    if |s| == 0 then 0 else DigitsValue(s[..|s| - 1]) * 10 + (s[|s| - 1] as int - '0' as int)
  }

  lemma {:induction false} DigitsValueOfDigits(n: nat)
    ensures DigitsValue(Digits(n)) == n
  {
    if n >= 10 {
      var s := Digits(n);
      assert s[..|s| - 1] == Digits(n / 10);
      DigitsValueOfDigits(n / 10);
    }
  }

  function ParseNat(s: string): Option<nat> {
    if |s| > 0 && AllDigits(s) then Some(DigitsValue(s)) else None
  }

  function Payload(c: Claims): string {
    Strings.JoinOn([Digits(c.userId), Digits(c.iat), Digits(c.exp)], '.')
  }

  /** The signature over the payload under `secret` (the HMAC of the real library). */
  function Signature(c: Claims, secret: string): nat {
    Strings.Fingerprint(secret + "." + Payload(c))
  }

  function Encode(c: Claims, sig: nat): string {
    Strings.JoinOn([Digits(c.userId), Digits(c.iat), Digits(c.exp), Digits(sig)], '.')
  }

  /** Reads a token back into its claims and signature; `None` when it is malformed. */
  function Decode(token: string): Option<(Claims, nat)> {
    var parts := Strings.SplitOn(token, '.');
    if |parts| != 4 then None
    else
      match (ParseNat(parts[0]), ParseNat(parts[1]), ParseNat(parts[2]), ParseNat(parts[3]))
      case (Some(u), Some(i), Some(e), Some(s)) => Some((Claims(u, i, e), s))
      case _ => None
  }

  lemma DigitsHaveNoDot(n: nat)
    ensures '.' !in Digits(n)
  {
  }

  lemma ParseDigits(n: nat)
    ensures ParseNat(Digits(n)) == Some(n)
  {
    DigitsValueOfDigits(n);
  }

  /** Decoding an encoded token gives back exactly its claims and signature. */
  lemma DecodeEncode(c: Claims, sig: nat)
    ensures Decode(Encode(c, sig)) == Some((c, sig))
  {
    var parts := [Digits(c.userId), Digits(c.iat), Digits(c.exp), Digits(sig)];
    DigitsHaveNoDot(c.userId);
    DigitsHaveNoDot(c.iat);
    DigitsHaveNoDot(c.exp);
    DigitsHaveNoDot(sig);
    Strings.SplitJoin(parts, '.');
    ParseDigits(c.userId);
    ParseDigits(c.iat);
    ParseDigits(c.exp);
    ParseDigits(sig);
  }

  /** `jwt.sign({ userId }, secret, { expiresIn })` at time `now`. */
  function Sign(userId: nat, secret: string, now: nat, expiresIn: nat): (token: string)
    ensures Decode(token) == Some((Claims(userId, now, now + expiresIn), Signature(Claims(userId, now, now + expiresIn), secret)))
  {
    var c := Claims(userId, now, now + expiresIn);
    DecodeEncode(c, Signature(c, secret));
    Encode(c, Signature(c, secret))
  }

  /**
   * `jwt.verify(token, secret)` at time `now`: the decoded user id, or `None` for a
   * malformed token, a bad signature, or an expired one (`now >= exp`).
   */
  function Verify(token: string, secret: string, now: nat): (r: Option<nat>)
    ensures r.Some? <==>
      Decode(token).Some? &&
      Decode(token).value.1 == Signature(Decode(token).value.0, secret) &&
      now < Decode(token).value.0.exp
    ensures r.Some? ==> r.value == Decode(token).value.0.userId
  {
    match Decode(token)
    case None => None
    case Some((c, sig)) =>
      if sig != Signature(c, secret) then None
      else if now >= c.exp then None
      else Some(c.userId)
  }

  /** A token verifies to the id it was signed for exactly while it has not expired. */
  lemma SignThenVerify(userId: nat, secret: string, issuedAt: nat, expiresIn: nat, now: nat)
    ensures Verify(Sign(userId, secret, issuedAt, expiresIn), secret, now) ==
      if now < issuedAt + expiresIn then Some(userId) else None
  {
    var c := Claims(userId, issuedAt, issuedAt + expiresIn);
    DecodeEncode(c, Signature(c, secret));
  }

  /** A token whose signature was made with another secret, as long as that changes it, is refused. */
  lemma WrongSecretRefused(userId: nat, secret: string, other: string, issuedAt: nat, expiresIn: nat, now: nat)
    requires
      var c := Claims(userId, issuedAt, issuedAt + expiresIn);
      Signature(c, other) != Signature(c, secret)
    ensures Verify(Sign(userId, other, issuedAt, expiresIn), secret, now) == None
  {
    var c := Claims(userId, issuedAt, issuedAt + expiresIn);
    DecodeEncode(c, Signature(c, other));
  }
}
