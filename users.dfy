/** The account routes of `routes/user.js`. The `users` table is a map from email to the
    row stored under it, held by `UserTable`; bcrypt's `compare` is an oracle `matches`,
    and the hash `hashSync` draws for a new password is an input. */
module Users {
  import opened Js
  import opened Jwt
  import opened Guards
  import opened Dates

  /** A row of `users`. The profile columns stay NULL until the first profile update. */
  datatype Account = Account(hash: string, firstName: Option<string>, lastName: Option<string>,
                             dob: Option<string>, address: Option<string>)

  function NewAccount(hash: string): Account
  {
    Account(hash, None, None, None, None)
  }

  datatype Body =
    | Message(error: bool, message: string)        // {error, message}
    | Outcome(success: bool, message: string)      // {success, message} of /register
    | Tokens(pair: TokenPair)                      // {bearerToken, refreshToken}
    | PublicProfile(email: string, firstName: Option<string>, lastName: Option<string>)
    | FullProfile(email: string, firstName: Option<string>, lastName: Option<string>,
                  dob: Option<string>, address: Option<string>)

  datatype Reply = Reply(status: int, body: Body)

  const MsgCredentialsIncomplete: string := "Request body incomplete - email and password needed"
  const MsgIncorrect: string := "Incorrect email or password"
  const MsgUserExists: string := "User already exists"
  const MsgUserCreated: string := "User created"
  const MsgLoggedOut: string := "Token successfully invalidated"
  const MsgUserNotFound: string := "User not found"
  const MsgForbidden: string := "Forbidden"
  const MsgProfileIncomplete: string := "Request body incomplete: firstName, lastName, dob and address are required."
  const MsgNotStrings: string := "Request body invalid: firstName, lastName and address must be strings only."
  const MsgBadDob: string := "Invalid input: dob must be a real date in format YYYY-MM-DD."
  const MsgDobFuture: string := "Invalid input: dob must be a date in the past."
  const MsgQueryError: string := "Error in MySQL query"

  /** A guard's refusal as a response. */
  function Refusal(g: GuardResult): Reply
    requires g.Reject?
  {
    Reply(g.status, Message(true, g.message))
  }

  // ---------------------------------------------------------------------------------
  // POST /login

  /** `/login` at time `now`: a missing field is refused before any lookup, and an unknown
      email and a wrong password are refused alike. */
  function Login(users: map<string, Account>, email: Option<string>, password: Option<string>,
                 matches: (string, string) -> bool, now: int): (r: Reply)
    ensures !TruthyString(email) || !TruthyString(password) ==> r == Reply(400, Message(true, MsgCredentialsIncomplete))
    ensures TruthyString(email) && TruthyString(password) ==>
              (r.status == 200 <==> email.value in users && matches(password.value, users[email.value].hash))
    ensures TruthyString(email) && TruthyString(password) && r.status != 200 ==> r == Reply(401, Message(true, MsgIncorrect))
    ensures r.status == 200 ==> r.body == Tokens(IssueTokens(email, now))
  {
    if !TruthyString(email) || !TruthyString(password) then Reply(400, Message(true, MsgCredentialsIncomplete))
    else if email.value !in users then Reply(401, Message(true, MsgIncorrect))
    else if !matches(password.value, users[email.value].hash) then Reply(401, Message(true, MsgIncorrect))
    else Reply(200, Tokens(IssueTokens(email, now)))
  }

  /** Failed logins cannot be told apart: nothing in the response says whether the account
      exists. */
  lemma LoginFailuresLookAlike(users: map<string, Account>, unknown: string, known: string, wrong: string, password: string,
                               matches: (string, string) -> bool, now: int)
    requires unknown != "" && unknown !in users && password != ""
    requires known != "" && known in users && wrong != "" && !matches(wrong, users[known].hash)
    ensures Login(users, Some(unknown), Some(password), matches, now) == Login(users, Some(known), Some(wrong), matches, now)
  {
  }

  // ---------------------------------------------------------------------------------
  // POST /refresh and POST /logout, both behind the refresh guard

  /** `/refresh`: a fresh pair for the email of the verified refresh token; no response at
      all where the guard sends none. */
  function RefreshRoute(refreshToken: Option<JsonValue>, oracle: string -> VerifyResult, now: int): (r: Option<Reply>)
    ensures r.None? <==> RefreshGuard(refreshToken, oracle, now) == NoReply
    ensures r.Some? && r.value.status == 200 ==>
              RefreshGuard(refreshToken, oracle, now).Pass? &&
              r.value.body == Tokens(IssueTokens(EmailOf(RefreshGuard(refreshToken, oracle, now).payload), now))
    ensures RefreshGuard(refreshToken, oracle, now).Pass? ==> r.Some? && r.value.status == 200
    ensures RefreshGuard(refreshToken, oracle, now).Reject? ==> r == Some(Refusal(RefreshGuard(refreshToken, oracle, now)))
  {
    var g := RefreshGuard(refreshToken, oracle, now);
    if g.Pass? then Some(Reply(200, Tokens(IssueTokens(EmailOf(g.payload), now))))
    else if g.Reject? then Some(Refusal(g))
    else None
  }

  /** `/logout`: answers success for any token the guard passes; nothing is recorded, so the
      same refresh token keeps working. */
  function LogoutRoute(refreshToken: Option<JsonValue>, oracle: string -> VerifyResult, now: int): (r: Option<Reply>)
    ensures RefreshGuard(refreshToken, oracle, now).Pass? <==> r == Some(Reply(200, Message(false, MsgLoggedOut)))
    ensures r.None? <==> RefreshGuard(refreshToken, oracle, now) == NoReply
    ensures RefreshGuard(refreshToken, oracle, now).Reject? ==> r == Some(Refusal(RefreshGuard(refreshToken, oracle, now)))
  {
    var g := RefreshGuard(refreshToken, oracle, now);
    if g.Pass? then Some(Reply(200, Message(false, MsgLoggedOut)))
    else if g.Reject? then Some(Refusal(g))
    else None
  }

  /** A refresh token from a successful login, within its lifetime and handed back by a
      verifier that decodes it faithfully, yields a new pair for the same account. */
  lemma LoginThenRefresh(users: map<string, Account>, email: string, password: string,
                         matches: (string, string) -> bool, issued: int,
                         token: string, oracle: string -> VerifyResult, now: int)
    requires Login(users, Some(email), Some(password), matches, issued).status == 200
    requires token != "" && oracle(token) == Verified(IssueTokens(Some(email), issued).refresh.claims)
    requires now <= issued + 86400
    ensures RefreshRoute(Some(JString(token)), oracle, now) == Some(Reply(200, Tokens(IssueTokens(Some(email), now))))
  {
  }

  /** The bearer token of a successful login passes the strict guard during its lifetime,
      carrying the login's email, and is refused as expired after it. */
  lemma LoginThenAuthorize(users: map<string, Account>, email: string, password: string,
                           matches: (string, string) -> bool, issued: int,
                           token: string, oracle: string -> VerifyResult, now: int)
    requires Login(users, Some(email), Some(password), matches, issued).status == 200
    requires token != "" && oracle(token) == Verified(IssueTokens(Some(email), issued).bearer.claims)
    ensures now <= issued + 600 ==>
              StrictGuard(Some(Bearer + token), oracle, now) == Pass(Claims(Some(email), Some(issued + 600)))
    ensures now > issued + 600 ==> StrictGuard(Some(Bearer + token), oracle, now) == Reject(401, MsgExpired)
  {
    assert StripBearer(Bearer + token) == token;
  }

  // ---------------------------------------------------------------------------------
  // GET /:email/profile, behind the profile guard

  /** The profile of `email` as seen by the caller `identity` (the profile guard's payload). */
  function GetProfile(users: map<string, Account>, email: string, identity: Payload): (r: Reply)
    ensures email !in users <==> r == Reply(404, Message(true, MsgUserNotFound))
    ensures email in users ==> r.status == 200
    // dob and address only for the account's own token, compared exactly
    ensures r.body.FullProfile? <==> email in users && EmailOf(identity) == Some(email)
    ensures r.body.PublicProfile? <==> email in users && EmailOf(identity) != Some(email)
    ensures r.body.PublicProfile? ==> r.body == PublicProfile(email, users[email].firstName, users[email].lastName)
    ensures r.body.FullProfile? ==>
              var a := users[email]; r.body == FullProfile(email, a.firstName, a.lastName, a.dob, a.address)
  {
    if email !in users then Reply(404, Message(true, MsgUserNotFound))
    else
      var a := users[email];
      if EmailOf(identity) != Some(email) then Reply(200, PublicProfile(email, a.firstName, a.lastName))
      else Reply(200, FullProfile(email, a.firstName, a.lastName, a.dob, a.address))
  }

  /** The route: the profile guard, then the handler. */
  function ProfileRoute(users: map<string, Account>, authorization: Option<string>,
                        oracle: string -> VerifyResult, now: int, email: string): (r: Reply)
    ensures ProfileGuard(authorization, oracle, now).Pass? ==> r == GetProfile(users, email, ProfileGuard(authorization, oracle, now).payload)
    ensures ProfileGuard(authorization, oracle, now).Reject? ==> r == Refusal(ProfileGuard(authorization, oracle, now))
  {
    var g := ProfileGuard(authorization, oracle, now);
    if g.Pass? then GetProfile(users, email, g.payload) else Refusal(g)
  }

  /** A caller without an Authorization header sees only the public fields. */
  lemma AnonymousSeesPublicView(users: map<string, Account>, oracle: string -> VerifyResult, now: int, email: string)
    requires email in users
    ensures ProfileRoute(users, None, oracle, now, email) ==
              Reply(200, PublicProfile(email, users[email].firstName, users[email].lastName))
  {
  }

  // ---------------------------------------------------------------------------------
  // PUT /:email/profile, behind the strict guard

  function Field(body: map<string, JsonValue>, k: string): Option<JsonValue>
  {
    if k in body then Some(body[k]) else None
  }

  /** `!firstName || !lastName || !dob || !address` is false. */
  predicate ProfileComplete(body: map<string, JsonValue>)
  {
    Truthy(Field(body, "firstName")) && Truthy(Field(body, "lastName")) &&
    Truthy(Field(body, "dob")) && Truthy(Field(body, "address"))
  }

  /** Every field of the body, the four named ones and any other, is a string. */
  predicate AllStrings(body: map<string, JsonValue>)
  {
    forall k :: k in body ==> body[k].JString?
  }

  /** The flag loop `for (let field in newData)`: set when some field is not a string. */
  method NonStringField(body: map<string, JsonValue>) returns (paramCheck: bool)
    ensures paramCheck <==> !AllStrings(body)
  {
    paramCheck := false;
    var pending := body.Keys;
    while pending != {}
      invariant pending <= body.Keys
      invariant paramCheck <==> exists k :: k in body.Keys - pending && !body[k].JString?
      decreases |pending|
    {
      var field :| field in pending;
      if !body[field].JString? {
        paramCheck := true;
      }
      pending := pending - {field};
    }
  }

  function Text(body: map<string, JsonValue>, k: string): string
    requires k in body && body[k].JString?
  {
    body[k].s
  }

  /** The first check of the update chain that fails, if any; `today` is the local date. */
  function UpdateRejection(email: string, identity: Payload, body: map<string, JsonValue>, today: Date): (r: Option<Reply>)
    ensures EmailOf(identity) != Some(email) ==> r == Some(Reply(403, Message(true, MsgForbidden)))
    ensures EmailOf(identity) == Some(email) && !ProfileComplete(body) ==> r == Some(Reply(400, Message(true, MsgProfileIncomplete)))
    ensures EmailOf(identity) == Some(email) && ProfileComplete(body) && !AllStrings(body) ==>
              r == Some(Reply(400, Message(true, MsgNotStrings)))
    ensures EmailOf(identity) == Some(email) && ProfileComplete(body) && AllStrings(body) ==>
              && (!IsCalendarDate(Text(body, "dob")) ==> r == Some(Reply(400, Message(true, MsgBadDob))))
              && (IsCalendarDate(Text(body, "dob")) && InFuture(Text(body, "dob"), today) ==> r == Some(Reply(400, Message(true, MsgDobFuture))))
    ensures r.None? <==>
              && EmailOf(identity) == Some(email) && ProfileComplete(body) && AllStrings(body)
              && IsCalendarDate(Text(body, "dob")) && !InFuture(Text(body, "dob"), today)
  {
    if EmailOf(identity) != Some(email) then Some(Reply(403, Message(true, MsgForbidden)))
    else if !ProfileComplete(body) then Some(Reply(400, Message(true, MsgProfileIncomplete)))
    else if !AllStrings(body) then Some(Reply(400, Message(true, MsgNotStrings)))
    else
      var dob := Text(body, "dob");
      DobAcceptedIffCalendarDate(dob);
      if !DobAccepted(dob) then Some(Reply(400, Message(true, MsgBadDob)))
      else if InFuture(dob, today) then Some(Reply(400, Message(true, MsgDobFuture)))
      else None
  }

  /** The row with its four profile columns overwritten from the body. */
  function Overwrite(a: Account, body: map<string, JsonValue>): (b: Account)
    requires ProfileComplete(body) && AllStrings(body)
    ensures b.hash == a.hash
    ensures b.firstName == Some(Text(body, "firstName")) && b.lastName == Some(Text(body, "lastName"))
    ensures b.dob == Some(Text(body, "dob")) && b.address == Some(Text(body, "address"))
  {
    a.(firstName := Some(Text(body, "firstName")), lastName := Some(Text(body, "lastName")),
       dob := Some(Text(body, "dob")), address := Some(Text(body, "address")))
  }

  /** The table after an update as the code is written: the row is overwritten only when
      every check passes, and no other row changes. */
  function UpdatedUsers(users: map<string, Account>, email: string, identity: Payload,
                        body: map<string, JsonValue>, today: Date): (r: map<string, Account>)
    ensures UpdateRejection(email, identity, body, today).Some? ==> r == users
    ensures r.Keys == users.Keys
    ensures forall e :: e in users && e != email ==> r[e] == users[e]
    ensures email in users && UpdateRejection(email, identity, body, today).None? ==>
              && r[email].hash == users[email].hash
              && r[email].firstName == Some(Text(body, "firstName")) && r[email].lastName == Some(Text(body, "lastName"))
              && r[email].dob == Some(Text(body, "dob")) && r[email].address == Some(Text(body, "address"))
  {
    if UpdateRejection(email, identity, body, today).None? && email in users
    then users[email := Overwrite(users[email], body)]
    else users
  }

  /** The response to an update as the code is written. Its existence check tests an
      unawaited query promise, which is always truthy, so a missing account is never a 404:
      the update touches no row and reading the row back fails, which the inner `catch`
      answers with the default status. */
  function UpdateReply(users: map<string, Account>, email: string, identity: Payload,
                       body: map<string, JsonValue>, today: Date): (r: Reply)
    ensures UpdateRejection(email, identity, body, today).Some? ==> r == UpdateRejection(email, identity, body, today).value
    ensures UpdateRejection(email, identity, body, today).None? && email in users ==>
              var a := UpdatedUsers(users, email, identity, body, today)[email];
              r == Reply(200, FullProfile(email, a.firstName, a.lastName, a.dob, a.address))
    ensures r.status != 404
  {
    match UpdateRejection(email, identity, body, today)
    case Some(rejection) => rejection
    case None =>
      if email in users then
        var a := Overwrite(users[email], body);
        Reply(200, FullProfile(email, a.firstName, a.lastName, a.dob, a.address))
      else Reply(200, Message(true, MsgQueryError))
  }

  /** As written: an update for an account with no row passes every check and is answered
      200 with the query-error body, never 404. */
  lemma MissingAccountIsNot404(users: map<string, Account>, email: string, identity: Payload,
                               body: map<string, JsonValue>, today: Date)
    requires email !in users && UpdateRejection(email, identity, body, today).None?
    ensures UpdateReply(users, email, identity, body, today) == Reply(200, Message(true, MsgQueryError))
    ensures UpdatedUsers(users, email, identity, body, today) == users
  {
  }

  /** The update body the witness below sends. */
  function SampleBody(): map<string, JsonValue>
  {
    map["firstName" := JString("Ann"), "lastName" := JString("Lee"),
        "dob" := JString("2000-02-29"), "address" := JString("1 Road")]
  }

  lemma SampleDobIsPast()
    ensures IsCalendarDate("2000-02-29") && DateOf("2000-02-29") == Date(2000, 2, 29)
  {
    var s := "2000-02-29";
    assert s[..4] == "2000" && s[5..7] == "02" && s[8..] == "29";
    ParseDecimal4("2000");
    ParseDecimal2("02");
    ParseDecimal2("29");
  }

  /** Such an input exists: a valid update by the token holder of an email nobody registered. */
  lemma MissingAccountWitness()
    ensures UpdateRejection("ann@x.com", Claims(Some("ann@x.com"), None), SampleBody(), Date(2026, 1, 1)).None?
    ensures UpdateReply(map[], "ann@x.com", Claims(Some("ann@x.com"), None), SampleBody(), Date(2026, 1, 1)) ==
              Reply(200, Message(true, MsgQueryError))
  {
    var body := SampleBody();
    assert ProfileComplete(body);
    assert AllStrings(body);
    assert Text(body, "dob") == "2000-02-29";
    SampleDobIsPast();
  }

  /** The evidently intended response: the existence check awaited, so a missing account is
      a 404 before anything else, and otherwise the code's own answer. */
  function CheckedUpdateReply(users: map<string, Account>, email: string, identity: Payload,
                              body: map<string, JsonValue>, today: Date): (r: Reply)
    ensures email !in users <==> r == Reply(404, Message(true, MsgUserNotFound))
    ensures email in users ==> r == UpdateReply(users, email, identity, body, today)
  {
    if email !in users then Reply(404, Message(true, MsgUserNotFound))
    else UpdateReply(users, email, identity, body, today)
  }

  /** A token for one account never changes another account's profile. */
  lemma ForeignTokenForbidden(users: map<string, Account>, email: string, other: string,
                              body: map<string, JsonValue>, today: Date)
    requires other != email
    ensures UpdateReply(users, email, Claims(Some(other), None), body, today) == Reply(403, Message(true, MsgForbidden))
    ensures UpdatedUsers(users, email, Claims(Some(other), None), body, today) == users
  {
  }

  /** A token for another account on an email nobody registered: the reachable input of
      the missing-account finding. As written the caller is told 403; with the existence
      check awaited the caller is told 404. */
  lemma ForeignTokenOnMissingAccount(users: map<string, Account>, email: string, other: string,
                                     body: map<string, JsonValue>, today: Date)
    requires other != email && email !in users
    ensures UpdateReply(users, email, Claims(Some(other), None), body, today) == Reply(403, Message(true, MsgForbidden))
    ensures CheckedUpdateReply(users, email, Claims(Some(other), None), body, today) == Reply(404, Message(true, MsgUserNotFound))
  {
  }

  /** `PUT /user/:email/profile`: the strict guard, then the update on the guard's payload. */
  function UpdateRoute(authorization: Option<string>, oracle: string -> VerifyResult, now: int,
                       users: map<string, Account>, email: string, body: map<string, JsonValue>, today: Date): (r: Reply)
    ensures StrictGuard(authorization, oracle, now).Pass? ==>
              r == UpdateReply(users, email, StrictGuard(authorization, oracle, now).payload, body, today)
    ensures StrictGuard(authorization, oracle, now).Reject? ==> r == Refusal(StrictGuard(authorization, oracle, now))
    // the 401 comes before any check of the email, the body or the table
    ensures authorization.None? ==> r == Reply(401, Message(true, MsgNoHeader))
  {
    var g := StrictGuard(authorization, oracle, now);
    if g.Pass? then UpdateReply(users, email, g.payload, body, today) else Refusal(g)
  }

  // ---------------------------------------------------------------------------------
  // The table and the two routes that write it

  class UserTable {
    var accounts: map<string, Account>

    constructor ()
      ensures accounts == map[]
    {
      accounts := map[];
    }

    /** `/register`; `passwordHash` is what `bcrypt.hashSync(password, 10)` returned. */
    method Register(email: Option<string>, password: Option<string>, passwordHash: string) returns (r: Reply)
      modifies this
      ensures !TruthyString(email) || !TruthyString(password) ==>
                r == Reply(400, Message(true, MsgCredentialsIncomplete)) && accounts == old(accounts)
      ensures TruthyString(email) && TruthyString(password) && email.value in old(accounts) ==>
                r == Reply(500, Outcome(false, MsgUserExists)) && accounts == old(accounts)
      ensures TruthyString(email) && TruthyString(password) && email.value !in old(accounts) ==>
                r == Reply(201, Outcome(true, MsgUserCreated)) && accounts == old(accounts)[email.value := NewAccount(passwordHash)]
    {
      if !TruthyString(email) || !TruthyString(password) {
        return Reply(400, Message(true, MsgCredentialsIncomplete));
      }
      if email.value in accounts {
        return Reply(500, Outcome(false, MsgUserExists));
      }
      accounts := accounts[email.value := NewAccount(passwordHash)];
      r := Reply(201, Outcome(true, MsgUserCreated));
    }

    /** Registering the same email twice: created once, refused the second time, one row. */
    method RegisterTwice(email: string, password: string, firstHash: string, secondHash: string)
        returns (first: Reply, second: Reply)
      requires email != "" && password != "" && email !in accounts
      modifies this
      ensures first.status == 201 && second == Reply(500, Outcome(false, MsgUserExists))
      ensures accounts == old(accounts)[email := NewAccount(firstHash)]
    {
      first := Register(Some(email), Some(password), firstHash);
      second := Register(Some(email), Some(password), secondHash);
    }

    /** `PUT /:email/profile` as written; `identity` is the strict guard's payload. */
    method UpdateProfile(email: string, identity: Payload, body: map<string, JsonValue>, today: Date) returns (r: Reply)
      modifies this
      ensures r == UpdateReply(old(accounts), email, identity, body, today)
      ensures accounts == UpdatedUsers(old(accounts), email, identity, body, today)
    {
      // The existence check on the unawaited query promise is always passed.
      if EmailOf(identity) != Some(email) {
        return Reply(403, Message(true, MsgForbidden));
      }
      if !Truthy(Field(body, "firstName")) || !Truthy(Field(body, "lastName")) ||
         !Truthy(Field(body, "dob")) || !Truthy(Field(body, "address")) {
        return Reply(400, Message(true, MsgProfileIncomplete));
      }
      var paramCheck := NonStringField(body);
      if paramCheck {
        return Reply(400, Message(true, MsgNotStrings));
      }
      var dob := Text(body, "dob");
      if !DobAccepted(dob) {
        return Reply(400, Message(true, MsgBadDob));
      }
      DobAcceptedIffCalendarDate(dob);
      if InFuture(dob, today) {
        return Reply(400, Message(true, MsgDobFuture));
      }
      if email in accounts {
        accounts := accounts[email := Overwrite(accounts[email], body)];
        var row := accounts[email];
        r := Reply(200, FullProfile(email, row.firstName, row.lastName, row.dob, row.address));
      } else {
        r := Reply(200, Message(true, MsgQueryError));
      }
    }

    /** The update with its existence check awaited. */
    method UpdateProfileChecked(email: string, identity: Payload, body: map<string, JsonValue>, today: Date) returns (r: Reply)
      modifies this
      ensures r == CheckedUpdateReply(old(accounts), email, identity, body, today)
      ensures accounts == UpdatedUsers(old(accounts), email, identity, body, today)
    {
      if email !in accounts {
        return Reply(404, Message(true, MsgUserNotFound));
      }
      r := UpdateProfile(email, identity, body, today);
    }
  }

  /** After registering, the new account logs in exactly with a password bcrypt matches
      against the stored hash. */
  lemma RegisterThenLogin(users: map<string, Account>, email: string, password: string, hash: string,
                          matches: (string, string) -> bool, now: int)
    requires email != "" && password != "" && email !in users
    ensures Login(users[email := NewAccount(hash)], Some(email), Some(password), matches, now).status == 200
            <==> matches(password, hash)
  {
  }
}
