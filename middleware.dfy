/**
 * Authentication for the protected routes: the bearer token is taken from the
 * `Authorization` header, verified against the server secret, and on success the
 * request carries the user id the token was issued for.
 */
module Middleware {
  import opened Wrappers
  import opened Api
  import Strings
  import Jwt

  /** The secret used when the `JWT_SECRET` environment variable is unset or empty. */
  const DefaultSecret: string := "your-secret-key-change-in-production"

  /** `expiresIn: '7d'`, in seconds. */
  const TokenLifetime: nat := 7 * 24 * 60 * 60

  /** `process.env.JWT_SECRET || DefaultSecret`. */
  function JwtSecret(env: Option<string>): (s: string)
    ensures s != ""
    ensures env.Some? && env.value != "" ==> s == env.value
    ensures env.None? || env.value == "" ==> s == DefaultSecret
  {
    if env.Some? && env.value != "" then env.value else DefaultSecret
  }

  /** `generateToken(userId)` at time `now`. */
  function GenerateToken(userId: nat, secret: string, now: nat): (token: string)
    ensures Jwt.Verify(token, secret, now) == Some(userId)
  {
    Jwt.SignThenVerify(userId, secret, now, TokenLifetime, now);
    Jwt.Sign(userId, secret, now, TokenLifetime)
  }

  /** `req.headers.authorization?.replace('Bearer ', '')`: the first occurrence is removed, wherever it stands. */
  function ExtractToken(header: Option<string>): (token: Option<string>)
    ensures token.None? <==> header.None?
  {
    match header
    case None => None
    case Some(h) => Some(Strings.ReplaceFirst(h, "Bearer ", ""))
  }

  /**
   * `authMiddleware`: the authenticated user id, or one of the two 401 answers. A missing
   * or empty token is "No token provided"; every verification failure (malformed, wrong
   * signature, expired) is the single "Invalid or expired token".
   */
  function Authenticate(header: Option<string>, secret: string, now: nat): (r: Result<nat>)
    ensures r == Err(NoToken) <==> ExtractToken(header).None? || ExtractToken(header).value == ""
    ensures r.Ok? <==>
      ExtractToken(header).Some? && ExtractToken(header).value != "" &&
      Jwt.Verify(ExtractToken(header).value, secret, now).Some?
    ensures r.Ok? ==> Jwt.Verify(ExtractToken(header).value, secret, now) == Some(r.value)
    ensures r.Err? ==> r.error == NoToken || r.error == InvalidToken
  {
    match ExtractToken(header)
    case None => Err(NoToken)
    case Some(token) =>
      if token == "" then Err(NoToken)
      else
        match Jwt.Verify(token, secret, now)
        case None => Err(InvalidToken)
        case Some(userId) => Ok(userId)
  }

  /**
   * A header `Bearer <token>` with a token from `GenerateToken` authenticates its user
   * exactly until seven days after issue, and is refused as invalid afterwards.
   */
  lemma BearerTokenAccepted(userId: nat, secret: string, issuedAt: nat, now: nat)
    ensures Authenticate(Some("Bearer " + GenerateToken(userId, secret, issuedAt)), secret, now) ==
      if now < issuedAt + TokenLifetime then Ok(userId) else Err(InvalidToken)
  {
    var token := GenerateToken(userId, secret, issuedAt);
    Strings.ReplaceFirstOfPrefix("Bearer ", token, "");
    assert "" + token == token;
    Jwt.SignThenVerify(userId, secret, issuedAt, TokenLifetime, now);
    var c := Jwt.Claims(userId, issuedAt, issuedAt + TokenLifetime);
    var parts := [Jwt.Digits(c.userId), Jwt.Digits(c.iat), Jwt.Digits(c.exp), Jwt.Digits(Jwt.Signature(c, secret))];
    assert token == parts[0] + ['.'] + Strings.JoinOn(parts[1..], '.');
    assert token != "";
  }

  /** A header that never mentions `Bearer ` is taken whole as the token. */
  lemma HeaderWithoutBearer(h: string)
    requires forall j :: !Strings.OccursAt(h, "Bearer ", j)
    ensures ExtractToken(Some(h)) == Some(h)
  {
  }

  /** Only the first `Bearer ` is removed, and it need not be a prefix. */
  lemma BearerRemovedInside(pre: string, rest: string)
    requires forall j :: 0 <= j < |pre| ==> !Strings.OccursAt(pre + "Bearer " + rest, "Bearer ", j)
    ensures ExtractToken(Some(pre + "Bearer " + rest)) == Some(pre + rest)
  {
    var h := pre + "Bearer " + rest;
    var i := |pre|;
    assert h[i..i + 7] == "Bearer ";
    assert Strings.OccursAt(h, "Bearer ", i);
    var r := Strings.ReplaceFirst(h, "Bearer ", "");
    assert r == h[..i] + "" + h[i + 7..];
    assert h[..i] == pre && h[i + 7..] == rest;
    assert h[..i] + "" == pre;
    assert r == pre + rest;
    assert ExtractToken(Some(h)) == Some(r);
  }

  /** The request object the middleware decorates. */
  class AuthRequest {
    const authorization: Option<string>
    var userId: Option<nat>

    constructor(authorization: Option<string>)
      ensures this.authorization == authorization && userId == None
    {
      this.authorization := authorization;
      userId := None;
    }

    /**
     * Runs the middleware: on success `userId` is set and the route handler runs
     * (`next()`); otherwise the answer is the 401 and `userId` is untouched.
     */
    method AuthMiddleware(secret: string, now: nat) returns (r: Result<nat>)
      modifies this
      ensures r == Authenticate(authorization, secret, now)
      ensures r.Ok? ==> userId == Some(r.value)
      ensures r.Err? ==> userId == old(userId)
    {
      var token := ExtractToken(authorization);
      if token.None? || token.value == "" {
        return Err(NoToken);
      }
      var decoded := Jwt.Verify(token.value, secret, now);
      if decoded.None? {
        return Err(InvalidToken);
      }
      userId := Some(decoded.value);
      r := Ok(decoded.value);
    }
  }
}
