/** The token vocabulary: what `jwt.verify` can report, and the claims `jwt.sign` is given.
    The signing and verification algorithms themselves are not modelled; a token's
    verification outcome is an oracle, a function from the token string to a result. */
module Jwt {
  import opened Js

  /** A decoded payload. `Claims` is an object payload (`{}` is `Claims(None, None)`);
      `EmptyPayload` is a payload that decodes to the empty string, the one falsy payload
      the library can return. */
  datatype Payload = Claims(email: Option<string>, exp: Option<int>) | EmptyPayload

  /** `payload.email`; undefined for a non-object payload. */
  function EmailOf(p: Payload): Option<string>
  {
    if p.Claims? then p.email else None
  }

  /** The guards' manual check `token_data.exp - now < 0`. With `exp` missing the difference
      is NaN and the comparison is false, so only a present expiry strictly before `now`
      counts. */
  predicate ExpiredAt(p: Payload, now: int)
  {
    p.Claims? && p.exp.Some? && p.exp.value < now
  }

  /** The errors `jwt.verify` throws, each with its `name` and `message`. */
  datatype JwtError =
    | NotProvided        // falsy token
    | NotAString         // a token that is not a string
    | TokenExpired       // exp reached
    | Malformed          // not three dot-separated parts
    | InvalidSignature
    | NotYetActive       // nbf in the future
    | InvalidToken       // undecodable header or payload, and the library's other refusals

  function Message(e: JwtError): string
  {
    match e
    case NotProvided => "jwt must be provided"
    case NotAString => "jwt must be a string"
    case TokenExpired => "jwt expired"
    case Malformed => "jwt malformed"
    case InvalidSignature => "invalid signature"
    case NotYetActive => "jwt not active"
    case InvalidToken => "invalid token"
  }

  function Name(e: JwtError): string
  {
    match e
    case TokenExpired => "TokenExpiredError"
    case NotYetActive => "NotBeforeError"
    case _ => "JsonWebTokenError"
  }

  datatype VerifyResult = Verified(payload: Payload) | Failed(error: JwtError)

  /** `jwt.verify(token, secret)`: the library refuses a falsy token and a non-string one
      before looking at it; any other token's outcome is the oracle's. */
  function Verify(token: Option<JsonValue>, oracle: string -> VerifyResult): (v: VerifyResult)
    ensures !Truthy(token) ==> v == Failed(NotProvided)
    ensures Truthy(token) && !token.value.JString? ==> v == Failed(NotAString)
    ensures Truthy(token) && token.value.JString? ==> v == oracle(token.value.s)
    // the empty string is falsy, so it never reaches the oracle
    ensures token == Some(JString("")) ==> v == Failed(NotProvided)
  {
    if !Truthy(token) then Failed(NotProvided)
    else if !token.value.JString? then Failed(NotAString)
    else oracle(token.value.s)
  }

  /** The only message the guards compare against for expiry belongs to the expiry error
      alone, and so does the name one guard compares instead. */
  lemma ExpiryIsRecognisedOnlyAsExpiry(e: JwtError)
    ensures Message(e) == "jwt expired" <==> e == TokenExpired
    ensures Name(e) == "TokenExpiredError" <==> e == TokenExpired
    ensures Message(e) == "jwt must be provided" <==> e == NotProvided
    ensures Message(e) == "jwt malformed" <==> e == Malformed
  {
  }

  const AccessLifetime: int := 60 * 10
  const RefreshLifetime: int := 60 * 60 * 24

  /** One half of a login or refresh response: `{token, token_type, expires_in}`, where the
      token is `jwt.sign(claims, secret)`, represented by the claims it signs. */
  datatype TokenInfo = TokenInfo(claims: Payload, tokenType: string, expiresIn: int)
  datatype TokenPair = TokenPair(bearer: TokenInfo, refresh: TokenInfo)

  /** The pair `/login` and `/refresh` both mint at time `now` (seconds). */
  function IssueTokens(email: Option<string>, now: int): (t: TokenPair)
    ensures t.bearer.tokenType == "Bearer" && t.bearer.expiresIn == 600
    ensures t.refresh.tokenType == "Refresh" && t.refresh.expiresIn == 86400
    // each token's embedded expiry is exactly the lifetime it advertises
    ensures t.bearer.claims == Claims(email, Some(now + t.bearer.expiresIn))
    ensures t.refresh.claims == Claims(email, Some(now + t.refresh.expiresIn))
  {
    TokenPair(TokenInfo(Claims(email, Some(now + AccessLifetime)), "Bearer", AccessLifetime),
              TokenInfo(Claims(email, Some(now + RefreshLifetime)), "Refresh", RefreshLifetime))
  }

  /** The two tokens of a pair carry the same identity and differ only in their expiry;
      the guards' manual check accepts each up to the end of its advertised lifetime and
      rejects it from the second after. */
  lemma IssuedLifetimes(email: Option<string>, now: int, t: int)
    ensures IssueTokens(email, now).bearer.claims.email == IssueTokens(email, now).refresh.claims.email == email
    ensures ExpiredAt(IssueTokens(email, now).bearer.claims, t) <==> t > now + 600
    ensures ExpiredAt(IssueTokens(email, now).refresh.claims, t) <==> t > now + 86400
  {
  }
}
