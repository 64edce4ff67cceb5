/** The person route of `routes/people.js`, behind the strict guard. The handler receives
    the rows of `names` left-joined with `principals` and `basics`, in database order. */
module People {
  import opened Js
  import opened Jwt
  import opened Guards

  const MsgQueryParams: string := "Invalid query parameters: aQueryParam. Query parameters are not permitted."
  const MsgNoPerson: string := "No record exists of a person with this ID"

  datatype PersonRow = PersonRow(primaryName: Option<string>, birthYear: Option<int>, deathYear: Option<int>,
                                 category: Option<string>, characters: Option<string>,
                                 originalTitle: Option<string>, tconst: Option<string>, imdbRating: Option<real>)

  datatype Role = Role(movieName: Option<string>, movieId: Option<string>, category: Option<string>,
                       characters: Characters, imdbRating: real)

  datatype Person = Person(name: Option<string>, birthYear: Option<int>, deathYear: Option<int>, roles: seq<Role>)

  datatype PersonResponse = PersonRefused(status: int, message: string) | Found(person: Person)

  /** The role a row describes: empty characters become `[]`, a NULL rating 0. */
  function RoleOf(row: PersonRow): (role: Role)
    ensures role.movieName == row.originalTitle && role.movieId == row.tconst && role.category == row.category
    ensures role.characters == NoCharacters <==> !TruthyString(row.characters)
    ensures role.characters == CharactersOf(row.characters)
    ensures role.imdbRating == ToNumber(row.imdbRating)
  {
    Role(row.originalTitle, row.tconst, row.category, CharactersOf(row.characters), ToNumber(row.imdbRating))
  }

  /** `rows.map(...)`. */
  function Roles(rows: seq<PersonRow>): (roles: seq<Role>)
    ensures |roles| == |rows|
    ensures forall i :: 0 <= i < |rows| ==> roles[i] == RoleOf(rows[i])
  {
    seq(|rows|, i requires 0 <= i < |rows| => RoleOf(rows[i]))
  }

  /** `/people/:id`; `query` holds the names of the query parameters. */
  function PersonData(query: set<string>, rows: seq<PersonRow>): (r: PersonResponse)
    // a query parameter is refused whatever the rows
    ensures query != {} ==> r == PersonRefused(400, MsgQueryParams)
    ensures query == {} && rows == [] ==> r == PersonRefused(404, MsgNoPerson)
    ensures r.Found? <==> query == {} && rows != []
    ensures r.Found? ==>
              && r.person.name == rows[0].primaryName
              && r.person.birthYear == rows[0].birthYear && r.person.deathYear == rows[0].deathYear
              // one role per row, in row order, each from its own row
              && |r.person.roles| == |rows|
              && forall i :: 0 <= i < |rows| ==> r.person.roles[i] == RoleOf(rows[i])
  {
    if query != {} then PersonRefused(400, MsgQueryParams)
    else if rows == [] then PersonRefused(404, MsgNoPerson)
    else Found(Person(rows[0].primaryName, rows[0].birthYear, rows[0].deathYear, Roles(rows)))
  }

  /** The mapping is row by row: the roles of two runs of rows are the roles of each. */
  lemma RolesAppend(a: seq<PersonRow>, b: seq<PersonRow>)
    ensures Roles(a + b) == Roles(a) + Roles(b)
  {
    assert forall i :: 0 <= i < |a| + |b| ==> Roles(a + b)[i] == (Roles(a) + Roles(b))[i];
  }

  /** The route: the strict guard, then the handler. */
  function PersonRoute(authorization: Option<string>, oracle: string -> VerifyResult, now: int,
                       query: set<string>, rows: seq<PersonRow>): (r: PersonResponse)
    ensures StrictGuard(authorization, oracle, now).Pass? <==> r == PersonData(query, rows)
    ensures StrictGuard(authorization, oracle, now).Reject? ==>
              r == PersonRefused(401, StrictGuard(authorization, oracle, now).message)
  {
    var g := StrictGuard(authorization, oracle, now);
    if g.Pass? then PersonData(query, rows) else PersonRefused(g.status, g.message)
  }

  /** Without a bearer token nothing about the person is revealed, not even whether the id
      exists or the request is well formed. */
  lemma NoTokenNoPerson(oracle: string -> VerifyResult, now: int, query: set<string>, rows: seq<PersonRow>)
    ensures PersonRoute(None, oracle, now, query, rows) == PersonRefused(401, MsgNoHeader)
  {
  }
}
