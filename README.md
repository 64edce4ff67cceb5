# Express movie API: authentication guards and route handlers in Dafny

This project models the request-handling core of a small Express server. The server offers:

- user accounts: register, login, refresh, logout, and reading or updating a profile;
- read-only movie and person lookups over an IMDb-style database.

What is modelled:

- **Auth guards.** The three middlewares stand between a request and its handler, each with its own rules:
  - `authorization` is strict;
  - `profileAuth` lets anonymous callers through;
  - `refreshAuth` reads the refresh token from the body.

  Each is a decision function (`Guards.StrictGuard`, `ProfileGuard`, `RefreshGuard`). Each is also a method on `Guards.Exchange`, the response plus `res.locals`, proved to leave exactly the state the decision describes. A reference definition shows all three as instances of one parametrised policy (`Guards.Decide`).
- **Tokens.** `jsonwebtoken` is an oracle from token string to verification outcome; `Jwt.Verify` adds the library's own refusals of a falsy or non-string token. Login and refresh mint a pair of claims with lifetimes of 600 and 86400 seconds (`Jwt.IssueTokens`).
- **Accounts.** `Users.UserTable` holds the `users` table as a map from email to row. `Register` and `UpdateProfile` change that map. Login, refresh, logout and profile reads are pure branch chains. bcrypt's `compare` is an oracle and `hashSync`'s output is an input.
- **Date of birth.** The profile update checks the date of birth with a regular expression. The model proves that regular expression accepts exactly the real Gregorian dates `YYYY-MM-DD` with years 1000 to 9999 (`Dates.DobAcceptedIffCalendarDate`).
- **Movies.** For `/movies/search`, the model covers page and year validation, the pagination arithmetic with JavaScript `slice` semantics, and a proof that the pages partition the rows. For `/movies/data/:imdbID`, principals and ratings are de-duplicated in first-occurrence order by loops. The loops are proved equal to a generic first-occurrence definition (`Dedup`). `parseRatingValue` is a leftmost-match search for each of its two patterns.
- **People.** `/people/:id` maps rows to roles one for one, behind the strict guard.

Database queries return rows in database order, passed in as sequences. The clock comes in as an input: `now` in seconds and `today` as a local date.

Some behaviours of the code are easy to misread, and the model follows the code in each:

- `refreshAuth` sends no response at all for a token with a bad signature, or one that is invalid for any reason other than being malformed, where the other two guards answer 401.
- A second registration of an email gets 500 with the message "User already exists", not 409.
- The profile update never answers 404 (see Findings).
- The redundant manual expiry check after verification is kept, because it is in the code. It lets a verified payload without `exp` through.

## Model

| member | source | states |
|---|---|---|
| Js.Split | routes/movies.js:165 | `split` on one character gives at least one part, no part contains the separator, and joining the parts with it gives the input back |
| Js.CharactersOf | routes/movies.js:176 | a falsy `characters` column gives `[]`; otherwise the column's text is parsed |
| Jwt.ExpiryIsRecognisedOnlyAsExpiry | middleware/authorization.js:41 | the message "jwt expired" and the name "TokenExpiredError" belong only to the expiry error; "jwt must be provided" only to a missing token; "jwt malformed" only to a malformed one |
| Jwt.Verify | middleware/authorization.js:29 | a falsy token, the empty string included, fails as not provided and a non-string one as not a string, before the secret is consulted; any other token gets the verifier's own outcome |
| Jwt.IssueTokens | routes/user.js:29-40 | a pair: one Bearer token of 600 s and one Refresh token of 86400 s, each carrying the email and an expiry exactly its advertised lifetime after `now` |
| Jwt.IssuedLifetimes | routes/user.js:29-32 | both tokens carry the same email; the manual expiry check accepts each up to the end of its lifetime and rejects it from the second after |
| Guards.StripBearer | middleware/authorization.js:25 | removes one leading "Bearer " when present (the header is that prefix plus the result) and leaves any other header unchanged |
| Guards.StrictGuard | middleware/authorization.js:9-58 | no header or no prefix is a 401 "not found" refusal, never verified; expiry is a 401 "expired"; every other failure, an empty token included, is a 401 "invalid"; a verified, unexpired payload passes; it never stays silent |
| Guards.LenientHeader | middleware/profileAuth.js:10 | the header as sent, or `""` when there is none |
| Guards.ProfileGuard | middleware/profileAuth.js:9-42 | an absent header or a bare prefix passes anonymously with `{}`; an expired token is a 401 "expired"; any other failure is a 401 "invalid"; a header without the prefix goes to the verifier whole |
| Guards.RefreshGuard | middleware/refreshAuth.js:3-56 | a falsy token or a falsy payload is a 400; expiry and a malformed token are 401s; any other failure gets no response; a pass carries an object payload that has not expired |
| Guards.Exchange.constructor | middleware/authorization.js:9 | a fresh exchange: no status, no reply, no stored payload, `next` not called |
| Guards.Exchange.Authorization | middleware/authorization.js:9-58 | the response and `res.locals.token_data` end as `StrictGuard` decides: either a reply or a stored payload with one `next()` call, never both, and nothing else written |
| Guards.Exchange.ProfileAuth | middleware/profileAuth.js:9-42 | the same for `res.locals.profile_data` under `ProfileGuard`, the anonymous fall-through included |
| Guards.Exchange.RefreshAuth | middleware/refreshAuth.js:3-56 | the same for `res.locals.refresh_data` under `RefreshGuard`; on the silent path nothing is written and `next` is not called |
| Guards.StrictFollowsPolicy | middleware/authorization.js:14-53 | after its header check, the strict guard is the shared policy with every kind of invalidity mapped to 401 "invalid" |
| Guards.ProfileFollowsPolicy | middleware/profileAuth.js:16-37 | the profile guard is the shared policy with an absent token mapped to an anonymous pass |
| Guards.RefreshFollowsPolicy | middleware/refreshAuth.js:9-51 | the refresh guard is the shared policy with an absent or falsy token mapped to 400 and a bad signature to silence |
| Guards.MissingCredential | middleware/refreshAuth.js:43-49 | with no credential at all the strict guard answers 401, the profile guard passes anonymously, and the refresh guard answers 400 |
| Guards.BadSignature | middleware/refreshAuth.js:32-51 | a token with a bad signature gets 401 "invalid" from both header guards and no response from the refresh guard |
| Guards.PrefixlessHeader | middleware/profileAuth.js:10-18 | a header without "Bearer " is refused by the strict guard but accepted by the profile guard when it verifies as a token |
| Dates.Exec | routes/user.js:297 | the regular expression's search finds the leftmost position where one of its alternatives matches, or reports that none does |
| Dates.DobAccepted | routes/user.js:297-298 | the date of birth passes exactly when it is ten characters long and the expression matches at its start |
| Dates.AcceptedIsOneWindow | routes/user.js:297-298 | because every alternative is ten characters long, "found, and the match is the whole input" means the input is ten characters long and matches as a whole |
| Dates.WindowIffCalendar | routes/user.js:294-295 | a ten-character string matches the expression exactly when it is a real calendar date |
| Dates.DobAcceptedIffCalendarDate | routes/user.js:294-304 | the date-of-birth check accepts exactly `YYYY-MM-DD` strings naming a real day of a year from 1000 to 9999 under the Gregorian leap-year rule |
| Dates.InFuture | routes/user.js:306-310 | local midnight of the date lies after the current instant exactly when the date is after today's date, so today's date and any earlier one are in the past |
| Dates.LeapDayExamples | routes/user.js:295 | 29 February is accepted in the leap years 2000 and 2024 |
| Dates.NonLeapDayExamples | routes/user.js:295 | 29 February is refused in 1900, a century not divisible by 400, and in 2023 |
| Dates.InvalidDateExamples | routes/user.js:295 | 30 February, month 13 and year 0999 are refused |
| Dates.SurroundedDateRefused | routes/user.js:298 | a valid date with one extra character before or after is refused |
| Dedup.KeysOf | routes/movies.js:166-171 | the set of seen keys holds exactly the keys carried by the rows passed over |
| Dedup.FirstIndices | routes/movies.js:169-178 | the kept positions are exactly the first occurrences of each key, in increasing order |
| Dedup.FirstIffUnseen | routes/movies.js:170 | a row is a first occurrence exactly when its key is truthy and not yet in the seen set |
| Dedup.FirstKeysDistinct | routes/movies.js:184-185 | no key is claimed twice |
| Dedup.FirstCovers | routes/movies.js:169-178 | every keyed row's key is claimed at or before that row |
| Dedup.FirstCount | routes/movies.js:166-179 | there are exactly as many kept rows as distinct keys |
| Dedup.PresentInjective | routes/movies.js:187-192 | dropping the unparsed entries keeps entries with distinct keys distinct |
| Movies.LastPage | routes/movies.js:72 | the fewest pages of 100 that hold all the rows: zero for no rows, otherwise the last page is not empty |
| Movies.Slice | routes/movies.js:80 | `slice(from, to)` is the rows from `from` to `to` when both are in range, and empty when `to` is 0 or not after `from` |
| Movies.PageAccepted | routes/movies.js:15-22 | an absent page is accepted, a present one exactly when it is one or more decimal digits; an empty page is refused |
| Movies.YearAccepted | routes/movies.js:55-62 | an absent or empty year is no filter and is accepted; any other year exactly when it is four decimal digits |
| Movies.CurrentPage | routes/movies.js:24-73 | an absent page is page 1; a present one is the decimal value of its digits, leading zeros read away, so "0" is page 0 |
| Movies.Paginate | routes/movies.js:71-78 | the page starts at row 100 times the page number less one and ends 100 rows later or at the last row, whichever is first; `prevPage` exactly after page 1, `nextPage` exactly before the last page |
| Movies.Summary | routes/movies.js:80-91 | metacritic rating 0 (NULL included) is reported as null, and every other value is passed through; the IMDb and Rotten Tomatoes ratings are the row's numbers, NULL read as 0; title, year, id and classification come from the row |
| Movies.Search | routes/movies.js:9-116 | the page is checked before the year; a bad page or a truthy non-four-digit year is a 400 with its message; otherwise the page's pagination and the summaries of its rows |
| Movies.PageWindow | routes/movies.js:71-78 | for a page from 1 to the last: `0 <= from < to <= total`, at most 100 rows, and next or previous pages exactly when they exist |
| Movies.SearchPageContents | routes/movies.js:74-80 | such a page's data are the summaries of rows `from` to `to` in order |
| Movies.EmptyPages | routes/movies.js:73-80 | page 0 and pages past the last show no rows, and past the last there is no next page |
| Movies.PageZero | routes/movies.js:15-26 | `page=0` passes validation and yields an empty page with `from` = -100, `to` = 0 and no previous page |
| Movies.PagesCover | routes/movies.js:74-80 | pages 1 to k, read in turn, are exactly the first 100·k rows in order |
| Movies.AllPagesShowAllRows | routes/movies.js:71-80 | pages 1 to `lastPage` show every row exactly once, in order |
| Movies.FractionEnd | routes/movies.js:240 | where the fraction pattern matching at a position ends its numerator: always before a "/" followed by a digit |
| Movies.FindPercent | routes/movies.js:235 | the leftmost position where "digits%" matches, or none |
| Movies.FindFraction | routes/movies.js:240 | the leftmost position where "D(.D)?/D" matches, or none |
| Movies.ParseRatingValue | routes/movies.js:234-246 | a percentage anywhere wins, giving the integer of its leftmost digits; otherwise the leftmost fraction's numerator; null exactly when neither pattern matches |
| Movies.RatingExamples | routes/movies.js:240-245 | "7.9/10" gives 7.9, "74/100" gives 74, "N/A" gives null |
| Movies.PercentExamples | routes/movies.js:235-238 | "87%" gives 87, and in "7/10 80%" the percentage wins over the earlier fraction |
| Movies.GenresOf | routes/movies.js:165 | a falsy `genres` column gives `[]`; otherwise comma-free parts that join back to the column |
| Movies.PrincipalOf | routes/movies.js:172-177 | the principal's id, category and name are its row's, and its characters the parse of its row's column |
| Movies.RatingOf | routes/movies.js:186-191 | a rating is kept exactly when the row's value parses, and then carries the row's source and the parsed value |
| Movies.PrincipalsOf | routes/movies.js:166-179 | the principals are exactly those of the rows where a truthy id first appears |
| Movies.RatingsOf | routes/movies.js:180-195 | the ratings are exactly the parsed ratings of the rows where a source first appears with a truthy value |
| Movies.CollectPrincipals | routes/movies.js:166-179 | the `forEach` with its seen-id set yields one principal per distinct truthy id, from its first row, in first-occurrence order |
| Movies.CollectRatings | routes/movies.js:180-195 | the `filter`/`reduce` with its seen-source set yields, for each source of a row with a truthy source and value, the first such row's rating if it parses |
| Movies.MovieData | routes/movies.js:121-208 | any query parameter is a 400; no rows is a 404; otherwise the header fields come from the first row, with the genres, principals and ratings as specified |
| Movies.PrincipalsOnePerId | routes/movies.js:166-179 | as many principals as distinct truthy ids, each from the row where its id first appears, in that order, and every truthy id represented |
| Movies.RatingSourcesDistinct | routes/movies.js:180-195 | no two ratings share a source |
| Movies.UnparsedClaimDropsSource | routes/movies.js:184-192 | when the first row for a source does not parse, that source is absent from the ratings, whatever later rows hold |
| Movies.ParsedClaimKept | routes/movies.js:184-192 | when the first row for a source parses, its rating is present |
| People.RoleOf | routes/people.js:48-54 | a role takes its movie, id, category and rating from its own row; its characters are the parse of that row's own column, with an empty column giving `[]`; a NULL rating is 0 |
| People.PersonData | routes/people.js:9-56 | any query parameter is a 400 whatever the rows; no rows is a 404; otherwise name and years from the first row and exactly one role per row, in row order |
| People.Roles | routes/people.js:48-54 | one role per row, each made from its own row, in row order |
| People.RolesAppend | routes/people.js:48 | the roles of two runs of rows are the roles of each run, concatenated |
| People.PersonRoute | routes/people.js:9 | the handler runs exactly when the strict guard passes; otherwise the guard's 401 |
| People.NoTokenNoPerson | routes/people.js:9 | without a header the answer is the 401 "not found" refusal, whatever the query and the rows |
| Users.Login | routes/user.js:26-92 | a missing field is a 400 before any lookup; otherwise 200 exactly when the account exists and bcrypt matches the password, with a fresh token pair, and a uniform 401 otherwise |
| Users.LoginFailuresLookAlike | routes/user.js:85-91 | an unknown email and a wrong password get identical responses |
| Users.RefreshRoute | routes/user.js:138-169 | a new pair for the email of a passing refresh token; the guard's refusal otherwise; no response where the guard sends none |
| Users.LogoutRoute | routes/user.js:175-178 | success exactly when the refresh guard passes; the guard's own 400 or 401 when it refuses; no reply when it is silent; nothing is recorded |
| Users.LoginThenRefresh | routes/user.js:37-40 | a refresh token from a successful login, used within a day, yields a new pair for the same email |
| Users.LoginThenAuthorize | routes/user.js:33-36 | a login's bearer token passes the strict guard with the login's email for 600 s and is refused as expired after |
| Users.GetProfile | routes/user.js:183-227 | 404 exactly for a missing account; dob and address exactly for the account's own token; otherwise only the names |
| Users.ProfileRoute | routes/user.js:183 | the profile read runs behind the profile guard |
| Users.AnonymousSeesPublicView | routes/user.js:202-211 | a caller with no header sees the public fields of an existing account |
| Users.NonStringField | routes/user.js:277-282 | the loop over the body's fields sets its flag exactly when some field is not a string |
| Users.UpdateRejection | routes/user.js:253-317 | checks in order: another account's token is a 403 whatever the body; then a missing field, a non-string field, a date that is not a real calendar date, and a date after today are 400s; none applies exactly when all pass |
| Users.Overwrite | routes/user.js:321-326 | the row keeps its hash and takes the body's first name, last name, dob and address |
| Users.UpdatedUsers | routes/user.js:318-326 | the table changes only when every check passes and the row exists, and then only that row's four profile columns |
| Users.UpdateReply | routes/user.js:232-354 | a failed check's response, or 200 with the updated row; as written never 404 |
| Users.MissingAccountIsNot404 | routes/user.js:237-251 | as written, a valid update for a missing account is answered 200 `{error: true, "Error in MySQL query"}` and changes nothing |
| Users.MissingAccountWitness | routes/user.js:237-251 | such an update exists: a well-formed body sent with its own token for an email nobody registered |
| Users.CheckedUpdateReply | routes/user.js:237-251 | with the existence check awaited: 404 exactly for a missing account, otherwise the code's response |
| Users.ForeignTokenForbidden | routes/user.js:254-258 | a token for another email is a 403 and leaves the table unchanged |
| Users.ForeignTokenOnMissingAccount | routes/user.js:237-258 | another account's token on an email nobody registered is told 403 as written and 404 with the existence check awaited |
| Users.UpdateRoute | routes/user.js:232 | the update runs on the strict guard's payload exactly when the guard passes; otherwise the guard's 401 is the answer, before the email, the body or the table is looked at |
| Users.UserTable.constructor | routes/user.js:111 | an empty table |
| Users.UserTable.Register | routes/user.js:97-133 | a missing field is a 400 and an existing email a 500 "User already exists", both leaving the table unchanged; otherwise 201 with exactly one new row holding the hash and empty profile columns |
| Users.UserTable.RegisterTwice | routes/user.js:115-131 | registering an email twice creates it once and refuses the second time, leaving one row |
| Users.UserTable.UpdateProfile | routes/user.js:232-354 | as written: the response and the new table are `UpdateReply` and `UpdatedUsers` of the old table |
| Users.UserTable.UpdateProfileChecked | routes/user.js:237-251 | corrected: the response is `CheckedUpdateReply`, with the same table change |
| Users.RegisterThenLogin | routes/user.js:64-68 | after registering, the account logs in exactly with a password bcrypt matches against the stored hash |

## Left out

- Express routing, `req`/`res` plumbing, console logging and `GET /user/` are left out: they decide nothing. Responses are values, and the middlewares write into `Guards.Exchange`.
- The rate limiter on `routes/user.js` is left out: it is defined but never applied.
- SQL building and execution is left out: the title `LIKE` filter, the year filter, the joins and `orderBy`. Handlers receive the rows a query returned, in that order. A table row is looked up by exact email; MySQL's case-insensitive collation is not modelled.
- The database-failure `catch` branches ("Error in MySQL query" with status 500, or with the default status) are left out. So are the error-name branches for `InvalidQueryParametersError` and `RateLimitExceededError`, which nothing in these files triggers. The one database error modelled is the missing row after a profile update (see Findings).
- Signing, verifying and hashing are left out: HMAC, the library's expiry arithmetic and clock tolerance, and bcrypt. They are oracles, and a token is represented by the claims it carries.
- Jwt.Verify: the oracle decides every outcome for a non-empty string token, so that the declared expiry agrees with the library's own expiry check is not modelled.
- `JSON.parse` of `characters` is an abstract decode (`Characters.ParsedJson`); its failure would throw and is not modelled.
- Floating point is left out. `Number(...)` of rating columns is an exact real, and NULL is 0.
- Movies.ParseRatingValue: returns the numeral of a fraction rather than `parseFloat`'s double, and the percentage's digits as an unbounded integer rather than a double.
- Time is an input. `Date.now()` becomes the injected `now` in seconds and `today` as a local date; time zones are not modelled. `new Date(y, m - 1, d) > Date.now()` is taken to mean the date lies after today.
- Non-string values are not modelled for these fields, which are modelled as nullable strings:
  - `email` and `password` at login and register;
  - the `Authorization` header;
  - `page` and `year` query values, which Express would make arrays if repeated.
- `parseInt` of a page number too large to be an exact double is read as its exact value.
- The order in which a middleware stores the payload and calls `next()` is not modelled; only the final state is.
- Promise asynchrony is not modelled, and neither are concurrent requests against the table. Each handler runs to completion on the table it is given.

## Findings

| source | as written | input that shows it | evidently intended | confidence | as-written member | corrected member |
|---|---|---|---|---|---|---|
| routes/user.js:237-251 | the existence check tests the Promise returned by `.then`; a Promise is always truthy, so the 404 branch never runs, and a missing account flows on to the update and the read-back | `PUT /user/ann@x.com/profile` with a valid token for ann@x.com, a complete valid body and no row for ann@x.com: 200 `{error: true, message: "Error in MySQL query"}`. Such a token cannot come from login, which needs the row; the reachable input is `PUT /user/nobody@x.com/profile` with a valid token for another account, answered 403 where 404 is intended (`Users.ForeignTokenOnMissingAccount`) | 404 `{error: true, message: "User not found"}` before any other check | high: follows from Promise truthiness; not executed | Users.MissingAccountIsNot404 | Users.CheckedUpdateReply |
