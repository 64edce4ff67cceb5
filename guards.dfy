/** The three authentication middlewares: `middleware/authorization.js` (strict, for the
    protected routes), `middleware/profileAuth.js` (lenient, for the profile view) and
    `middleware/refreshAuth.js` (for `/refresh` and `/logout`).

    Each is given once as a decision function (what the middleware ends in) and once as a
    method on `Exchange`, the request/response pair the middleware writes into, proved to
    leave exactly the state its decision function describes. */
module Guards {
  import opened Js
  import opened Jwt

  const Bearer: string := "Bearer "

  const MsgNoHeader: string := "Authorization header ('Bearer token') not found"
  const MsgExpired: string := "JWT token has expired"
  const MsgInvalid: string := "Invalid JWT token"
  const MsgRefreshRequired: string := "Request body incomplete, refresh token required"

  /** How a middleware ends: `next()` after storing the payload, a response
      `res.status(status).json({error: true, message})`, or neither. */
  datatype GuardResult = Pass(payload: Payload) | Reject(status: int, message: string) | NoReply

  /** `header.replace(/^Bearer /, "")`: a single leading prefix is removed, if present. */
  function StripBearer(h: string): (t: string)
    ensures StartsWith(h, Bearer) ==> h == Bearer + t
    ensures !StartsWith(h, Bearer) ==> t == h
  {
    if StartsWith(h, Bearer) then h[|Bearer|..] else h
  }

  /** The bearer token of a header the strict guard accepted. */
  function BearerVerdict(header: string, oracle: string -> VerifyResult): VerifyResult
  {
    Verify(Some(JString(StripBearer(header))), oracle)
  }

  /** `authorization.js`: fails closed, always with 401. */
  function StrictGuard(authorization: Option<string>, oracle: string -> VerifyResult, now: int): (r: GuardResult)
    // no header or no "Bearer " prefix: rejected, the token is never verified
    ensures authorization.None? || !StartsWith(authorization.value, Bearer) ==> r == Reject(401, MsgNoHeader)
    ensures authorization.Some? && StartsWith(authorization.value, Bearer) ==>
              var v := BearerVerdict(authorization.value, oracle);
              && (v == Failed(TokenExpired) ==> r == Reject(401, MsgExpired))
              // every other verification failure, an empty token included, reads as invalid
              && (v.Failed? && v.error != TokenExpired ==> r == Reject(401, MsgInvalid))
              // the redundant manual expiry check; a payload without exp passes it
              && (v.Verified? && ExpiredAt(v.payload, now) ==> r == Reject(401, MsgExpired))
              && (v.Verified? && !ExpiredAt(v.payload, now) ==> r == Pass(v.payload))
    ensures r.Pass? ==> !ExpiredAt(r.payload, now)
    ensures r.Reject? ==> r.status == 401
    ensures !r.NoReply?
  {
    if authorization.None? || !StartsWith(authorization.value, Bearer) then Reject(401, MsgNoHeader)
    else
      match BearerVerdict(authorization.value, oracle)
      case Verified(p) => if ExpiredAt(p, now) then Reject(401, MsgExpired) else Pass(p)
      case Failed(e) => if Message(e) == "jwt expired" then Reject(401, MsgExpired) else Reject(401, MsgInvalid)
  }

  /** The header `profileAuth.js` reads: `req.headers.authorization || ""`. */
  function LenientHeader(authorization: Option<string>): (header: string)
    ensures authorization.Some? ==> header == authorization.value
    ensures authorization.None? ==> header == ""
  {
    if authorization.Some? then authorization.value else ""
  }

  /** `profileAuth.js`: a missing header is `""`, a header without the prefix is used whole,
      and a missing token lets the request through anonymously with the payload `{}`. */
  function ProfileGuard(authorization: Option<string>, oracle: string -> VerifyResult, now: int): (r: GuardResult)
    ensures var v := Verify(Some(JString(StripBearer(LenientHeader(authorization)))), oracle);
            && (v == Failed(NotProvided) ==> r == Pass(Claims(None, None)))
            && (v == Failed(TokenExpired) ==> r == Reject(401, MsgExpired))
            && (v.Failed? && v.error != NotProvided && v.error != TokenExpired ==> r == Reject(401, MsgInvalid))
            && (v.Verified? && ExpiredAt(v.payload, now) ==> r == Reject(401, MsgExpired))
            && (v.Verified? && !ExpiredAt(v.payload, now) ==> r == Pass(v.payload))
    // no header at all, or only the bare prefix: the anonymous path
    ensures StripBearer(LenientHeader(authorization)) == "" ==> r == Pass(Claims(None, None))
    ensures r.Reject? ==> r.status == 401
    ensures !r.NoReply?
  {
    var token := StripBearer(LenientHeader(authorization));
    match Verify(Some(JString(token)), oracle)
    case Verified(p) => if ExpiredAt(p, now) then Reject(401, MsgExpired) else Pass(p)
    case Failed(e) =>
      if Name(e) == "TokenExpiredError" then Reject(401, MsgExpired)
      else if Message(e) != "jwt must be provided" then Reject(401, MsgInvalid)
      else Pass(Claims(None, None))
  }

  /** `refreshAuth.js`: the token is the body field `refreshToken`. A missing token is a 400,
      expiry and malformation are 401s, and any other failure sends nothing at all. */
  function RefreshGuard(refreshToken: Option<JsonValue>, oracle: string -> VerifyResult, now: int): (r: GuardResult)
    ensures !Truthy(refreshToken) ==> r == Reject(400, MsgRefreshRequired)
    ensures var v := Verify(refreshToken, oracle);
            && (v == Failed(NotProvided) ==> r == Reject(400, MsgRefreshRequired))
            && (v == Failed(TokenExpired) ==> r == Reject(401, MsgExpired))
            && (v == Failed(Malformed) ==> r == Reject(401, MsgInvalid))
            && (v.Failed? && v.error !in {NotProvided, TokenExpired, Malformed} ==> r == NoReply)
            // a falsy payload is treated like a missing token
            && (v == Verified(EmptyPayload) ==> r == Reject(400, MsgRefreshRequired))
            && (v.Verified? && ExpiredAt(v.payload, now) ==> r == Reject(401, MsgExpired))
            && (v.Verified? && v.payload.Claims? && !ExpiredAt(v.payload, now) ==> r == Pass(v.payload))
    ensures r.Pass? ==> r.payload.Claims? && !ExpiredAt(r.payload, now)
  {
    match Verify(refreshToken, oracle)
    case Verified(p) =>
      if p.EmptyPayload? then Reject(400, MsgRefreshRequired)
      else if ExpiredAt(p, now) then Reject(401, MsgExpired)
      else Pass(p)
    case Failed(e) =>
      if Message(e) == "jwt expired" then Reject(401, MsgExpired)
      else if Message(e) == "jwt malformed" then Reject(401, MsgInvalid)
      else if Message(e) == "jwt must be provided" then Reject(400, MsgRefreshRequired)
      else NoReply
  }

  /** The request/response pair a middleware is handed: the response status and the message
      of the `{error: true, message}` body once `res.json` is called, the three
      `res.locals` slots, and how often `next` was called. */
  class Exchange {
    var status: int
    var reply: Option<string>
    var tokenData: Option<Payload>
    var profileData: Option<Payload>
    var refreshData: Option<Payload>
    var nextCalls: nat

    constructor ()
      ensures status == 200 && reply.None? && nextCalls == 0
      ensures tokenData.None? && profileData.None? && refreshData.None?
    {
      status := 200;
      reply := None;
      tokenData, profileData, refreshData := None, None, None;
      nextCalls := 0;
    }

    /** Nothing has answered the request yet. */
    predicate Untouched()
      reads this
    {
      reply.None? && nextCalls == 0
    }

    method Authorization(authorization: Option<string>, oracle: string -> VerifyResult, now: int)
      requires Untouched()
      modifies this
      ensures match StrictGuard(authorization, oracle, now)
              case Pass(p) => tokenData == Some(p) && nextCalls == 1 && reply.None? && status == old(status)
              case Reject(code, msg) => status == code && reply == Some(msg) && nextCalls == 0 && tokenData == old(tokenData)
              case NoReply => false
      // exactly one of: a response is sent, next is called
      ensures reply.Some? <==> nextCalls == 0
      ensures profileData == old(profileData) && refreshData == old(refreshData)
    {
      if authorization.None? || !StartsWith(authorization.value, Bearer) {
        status := 401;
        reply := Some(MsgNoHeader);
        return;
      }
      var token := StripBearer(authorization.value);
      var verdict := Verify(Some(JString(token)), oracle);
      if verdict.Failed? {
        status := 401;
        if Message(verdict.error) == "jwt expired" {
          reply := Some(MsgExpired);
        } else {
          reply := Some(MsgInvalid);
        }
        return;
      }
      var decoded := verdict.payload;
      if ExpiredAt(decoded, now) {
        status := 401;
        reply := Some(MsgExpired);
        return;
      }
      tokenData := Some(decoded);
      nextCalls := nextCalls + 1;
    }

    method ProfileAuth(authorization: Option<string>, oracle: string -> VerifyResult, now: int)
      requires Untouched()
      modifies this
      ensures match ProfileGuard(authorization, oracle, now)
              case Pass(p) => profileData == Some(p) && nextCalls == 1 && reply.None? && status == old(status)
              case Reject(code, msg) => status == code && reply == Some(msg) && nextCalls == 0 && profileData == old(profileData)
              case NoReply => false
      ensures reply.Some? <==> nextCalls == 0
      ensures tokenData == old(tokenData) && refreshData == old(refreshData)
    {
      var header := if authorization.Some? then authorization.value else "";
      var token := StripBearer(header);
      var decoded: Payload := Claims(None, None);
      match Verify(Some(JString(token)), oracle) {
        case Verified(p) =>
          decoded := p;
          if ExpiredAt(decoded, now) {
            status := 401;
            reply := Some(MsgExpired);
            return;
          }
        case Failed(e) =>
          if Name(e) == "TokenExpiredError" {
            status := 401;
            reply := Some(MsgExpired);
            return;
          } else if Message(e) != "jwt must be provided" {
            status := 401;
            reply := Some(MsgInvalid);
            return;
          }
      }
      profileData := Some(decoded);
      nextCalls := nextCalls + 1;
    }

    method RefreshAuth(refreshToken: Option<JsonValue>, oracle: string -> VerifyResult, now: int)
      requires Untouched()
      modifies this
      ensures match RefreshGuard(refreshToken, oracle, now)
              case Pass(p) => refreshData == Some(p) && nextCalls == 1 && reply.None? && status == old(status)
              case Reject(code, msg) => status == code && reply == Some(msg) && nextCalls == 0 && refreshData == old(refreshData)
              case NoReply => reply.None? && nextCalls == 0 && status == old(status) && refreshData == old(refreshData)
      // never both; the silent path does neither
      ensures !(reply.Some? && nextCalls > 0) && nextCalls <= 1
      ensures tokenData == old(tokenData) && profileData == old(profileData)
    {
      match Verify(refreshToken, oracle) {
        case Verified(decoded) =>
          if decoded.EmptyPayload? {
            status := 400;
            reply := Some(MsgRefreshRequired);
            return;
          }
          if ExpiredAt(decoded, now) {
            status := 401;
            reply := Some(MsgExpired);
            return;
          }
          refreshData := Some(decoded);
          nextCalls := nextCalls + 1;
        case Failed(e) =>
          if Message(e) == "jwt expired" {
            status := 401;
            reply := Some(MsgExpired);
          } else if Message(e) == "jwt malformed" {
            status := 401;
            reply := Some(MsgInvalid);
          } else if Message(e) == "jwt must be provided" {
            status := 400;
            reply := Some(MsgRefreshRequired);
          }
      }
    }
  }

  // ---------------------------------------------------------------------------------
  // A reference: the three guards as instances of one parametrised policy.

  /** Where a presented credential stands once verified. */
  datatype Standing = Absent | Lapsed | Garbled | Refused | Falsy | Current(payload: Payload)

  function StandingOf(v: VerifyResult, now: int): Standing
  {
    match v
    case Failed(NotProvided) => Absent
    case Failed(TokenExpired) => Lapsed
    case Failed(Malformed) => Garbled
    case Failed(_) => Refused
    case Verified(EmptyPayload) => Falsy
    case Verified(p) => if ExpiredAt(p, now) then Lapsed else Current(p)
  }

  /** What a guard does with each standing; expiry is always a 401 and a current payload
      always passes, so only these four vary. */
  datatype Policy = Policy(onAbsent: GuardResult, onGarbled: GuardResult, onRefused: GuardResult, onFalsy: GuardResult)

  function Decide(policy: Policy, s: Standing): GuardResult
  {
    match s
    case Absent => policy.onAbsent
    case Lapsed => Reject(401, MsgExpired)
    case Garbled => policy.onGarbled
    case Refused => policy.onRefused
    case Falsy => policy.onFalsy
    case Current(p) => Pass(p)
  }

  const StrictPolicy: Policy := Policy(Reject(401, MsgInvalid), Reject(401, MsgInvalid), Reject(401, MsgInvalid), Pass(EmptyPayload))
  const ProfilePolicy: Policy := Policy(Pass(Claims(None, None)), Reject(401, MsgInvalid), Reject(401, MsgInvalid), Pass(EmptyPayload))
  const RefreshPolicy: Policy := Policy(Reject(400, MsgRefreshRequired), Reject(401, MsgInvalid), NoReply, Reject(400, MsgRefreshRequired))

  lemma StrictFollowsPolicy(authorization: Option<string>, oracle: string -> VerifyResult, now: int)
    ensures StrictGuard(authorization, oracle, now) ==
              if authorization.None? || !StartsWith(authorization.value, Bearer) then Reject(401, MsgNoHeader)
              else Decide(StrictPolicy, StandingOf(BearerVerdict(authorization.value, oracle), now))
  {
  }

  lemma ProfileFollowsPolicy(authorization: Option<string>, oracle: string -> VerifyResult, now: int)
    ensures ProfileGuard(authorization, oracle, now) ==
              Decide(ProfilePolicy, StandingOf(Verify(Some(JString(StripBearer(LenientHeader(authorization)))), oracle), now))
  {
  }

  lemma RefreshFollowsPolicy(refreshToken: Option<JsonValue>, oracle: string -> VerifyResult, now: int)
    ensures RefreshGuard(refreshToken, oracle, now) == Decide(RefreshPolicy, StandingOf(Verify(refreshToken, oracle), now))
  {
  }

  /** The guards do not agree on a missing credential, whatever the verifier and the clock. */
  lemma MissingCredential(oracle: string -> VerifyResult, now: int)
    ensures StrictGuard(None, oracle, now) == Reject(401, MsgNoHeader)
    ensures ProfileGuard(None, oracle, now) == Pass(Claims(None, None))
    ensures RefreshGuard(None, oracle, now) == Reject(400, MsgRefreshRequired)
  {
  }

  /** Nor on a token with a bad signature: the two header guards answer 401, the refresh
      guard answers nothing. */
  lemma BadSignature(token: string, oracle: string -> VerifyResult, now: int)
    requires token != "" && oracle(token) == Failed(InvalidSignature)
    ensures StrictGuard(Some(Bearer + token), oracle, now) == Reject(401, MsgInvalid)
    ensures ProfileGuard(Some(Bearer + token), oracle, now) == Reject(401, MsgInvalid)
    ensures RefreshGuard(Some(JString(token)), oracle, now) == NoReply
  {
    assert StartsWith(Bearer + token, Bearer);
  }

  /** A header that lacks the prefix is refused by the strict guard but handed whole to the
      verifier by the profile guard. */
  lemma PrefixlessHeader(header: string, oracle: string -> VerifyResult, now: int, p: Payload)
    requires header != "" && !StartsWith(header, Bearer)
    requires oracle(header) == Verified(p) && !ExpiredAt(p, now)
    ensures StrictGuard(Some(header), oracle, now) == Reject(401, MsgNoHeader)
    ensures ProfileGuard(Some(header), oracle, now) == Pass(p)
  {
  }
}
