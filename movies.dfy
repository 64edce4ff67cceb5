/** The movie routes of `routes/movies.js`. Each handler receives the rows its query
    returned, in database order; the SQL itself (the title filter, the joins, the ordering)
    is not modelled. Numeric columns are exact reals, and `parseFloat` of a rating numeral
    is left as the numeral. */
module Movies {
  import opened Js
  import opened Dedup

  const PerPage: int := 100

  const MsgBadPage: string := "Invalid page format. page must be a number."
  const MsgBadYear: string := "Invalid year format. Format must be yyyy."
  const MsgQueryParams: string := "Invalid query parameters: aQueryParam. Query parameters are not permitted."
  const MsgNoMovie: string := "No record exists of a movie with this ID"

  // ---------------------------------------------------------------------------------
  // GET /movies/search

  /** `/^[0-9]+$/.test(page)`. */
  predicate PageFormat(p: string)
  {
    |p| >= 1 && AllDigits(p)
  }

  /** `/^\d{4}$/.test(year)`. */
  predicate YearFormat(y: string)
  {
    |y| == 4 && AllDigits(y)
  }

  /** An absent page is accepted; a present one only when it is one or more digits. */
  function PageAccepted(page: Option<string>): (ok: bool)
    ensures page.None? ==> ok
    ensures page.Some? ==> (ok <==> |page.value| >= 1 && forall i :: 0 <= i < |page.value| ==> IsDigit(page.value[i]))
    ensures page == Some("") ==> !ok
  {
    page.None? || PageFormat(page.value)
  }

  /** `year` is checked only when truthy, so an empty `year=` is no filter at all. */
  function YearAccepted(year: Option<string>): (ok: bool)
    ensures year.None? || year == Some("") ==> ok
    ensures year.Some? && year.value != "" ==>
              (ok <==> |year.value| == 4 && forall i :: 0 <= i < 4 ==> IsDigit(year.value[i]))
  {
    !TruthyString(year) || YearFormat(year.value)
  }

  /** `parseInt(page, 10)` of an accepted page; 1 when absent. */
  function CurrentPage(page: Option<string>): (n: nat)
    requires PageAccepted(page)
    ensures page.None? ==> n == 1
    ensures page.Some? ==> n == ParseDecimal(page.value)
    // leading zeros are read away, and "0" is a page of its own
    ensures page == Some("0") || page == Some("00") ==> n == 0
    ensures page == Some("01") ==> n == 1
  {
    if page.None? then 1 else ParseDecimal(page.value)
  }

  function Min(a: int, b: int): int
  {
    if a <= b then a else b
  }

  /** `Math.ceil(total / perPage)`: the fewest pages that hold every row. */
  function LastPage(total: nat): (n: nat)
    ensures n * PerPage >= total
    ensures total > 0 ==> (n - 1) * PerPage < total
    ensures total == 0 ==> n == 0
  {
    (total + PerPage - 1) / PerPage
  }

  datatype Pagination = Pagination(total: nat, lastPage: nat, prevPage: Option<int>, nextPage: Option<int>,
                                   perPage: int, currentPage: int, from: int, to: int)

  /** The `pagination` object and the slice bounds of one page. */
  function Paginate(total: nat, currentPage: int): (p: Pagination)
    ensures p.total == total && p.lastPage == LastPage(total) && p.perPage == PerPage && p.currentPage == currentPage
    // page n starts at row 100 * (n - 1) and holds at most 100 rows, ending no later than the last row
    ensures p.from == (currentPage - 1) * PerPage
    ensures p.to <= total && p.to <= p.from + PerPage
    ensures p.to == p.from + PerPage || p.to == total
    ensures p.prevPage.Some? <==> currentPage > 1
    ensures p.prevPage.Some? ==> p.prevPage.value == currentPage - 1
    ensures p.nextPage.Some? <==> currentPage < LastPage(total)
    ensures p.nextPage.Some? ==> p.nextPage.value == currentPage + 1
  {
    var from := (currentPage - 1) * PerPage;
    var lastPage := LastPage(total);
    Pagination(total, lastPage,
               if currentPage > 1 then Some(currentPage - 1) else None,
               if currentPage < lastPage then Some(currentPage + 1) else None,
               PerPage, currentPage, from, Min(from + PerPage, total))
  }

  /** `Array.prototype.slice`'s reading of an index: negative counts from the end, and
      both kinds are clamped to the array. */
  function SliceIndex(i: int, len: nat): (k: nat)
    ensures k <= len
    ensures 0 <= i <= len ==> k == i
  {
    if i < 0 then (if len + i < 0 then 0 else len + i)
    else if i < len then i else len
  }

  /** `s.slice(from, to)`. */
  function Slice<T>(s: seq<T>, from: int, to: int): (r: seq<T>)
    ensures 0 <= from <= to <= |s| ==> r == s[from..to]
    ensures 0 <= to <= from ==> r == []
    ensures to == 0 ==> r == []
  {
    var a, b := SliceIndex(from, |s|), SliceIndex(to, |s|);
    if a < b then s[a..b] else []
  }

  /** A row of the `basics` search query. */
  datatype SearchRow = SearchRow(primaryTitle: Option<string>, year: Option<int>, tconst: string,
                                 imdbRating: Option<real>, rottenTomatoesRating: Option<real>,
                                 metacriticRating: Option<real>, rated: Option<string>)

  datatype MovieSummary = MovieSummary(title: Option<string>, year: Option<int>, imdbID: string,
                                       imdbRating: real, rottenTomatoesRating: real,
                                       metacriticRating: Option<real>, classification: Option<string>)

  /** One entry of `data`. A metacritic rating of 0, which is also what NULL becomes, is
      reported as null; every other value is passed through. */
  function Summary(row: SearchRow): (m: MovieSummary)
    ensures m.metacriticRating.None? <==> ToNumber(row.metacriticRating) == 0.0
    ensures m.metacriticRating.Some? ==> m.metacriticRating.value == ToNumber(row.metacriticRating) != 0.0
    ensures m.imdbID == row.tconst && m.title == row.primaryTitle && m.year == row.year && m.classification == row.rated
    ensures m.imdbRating == ToNumber(row.imdbRating) && m.rottenTomatoesRating == ToNumber(row.rottenTomatoesRating)
  {
    var metacritic := ToNumber(row.metacriticRating);
    MovieSummary(row.primaryTitle, row.year, row.tconst, ToNumber(row.imdbRating), ToNumber(row.rottenTomatoesRating),
                 if metacritic == 0.0 then None else Some(metacritic), row.rated)
  }

  /** The rows a page shows. */
  function PageRows(rows: seq<SearchRow>, currentPage: int): seq<SearchRow>
  {
    var p := Paginate(|rows|, currentPage);
    Slice(rows, p.from, p.to)
  }

  datatype SearchResponse =
    | SearchRefused(status: int, message: string)
    | SearchPage(data: seq<MovieSummary>, pagination: Pagination)

  /** `/movies/search?year=&page=`: the page is checked before the year, and a valid
      request gets the summaries of its page of rows. */
  function Search(year: Option<string>, page: Option<string>, rows: seq<SearchRow>): (r: SearchResponse)
    ensures !PageAccepted(page) ==> r == SearchRefused(400, MsgBadPage)
    ensures PageAccepted(page) && !YearAccepted(year) ==> r == SearchRefused(400, MsgBadYear)
    ensures r.SearchPage? <==> PageAccepted(page) && YearAccepted(year)
    ensures r.SearchPage? ==>
              && r.pagination == Paginate(|rows|, CurrentPage(page))
              && |r.data| == |PageRows(rows, CurrentPage(page))|
              && forall i :: 0 <= i < |r.data| ==> r.data[i] == Summary(PageRows(rows, CurrentPage(page))[i])
  {
    if !PageAccepted(page) then SearchRefused(400, MsgBadPage)
    else if !YearAccepted(year) then SearchRefused(400, MsgBadYear)
    else
      var current := CurrentPage(page);
      var window := PageRows(rows, current);
      SearchPage(seq(|window|, i requires 0 <= i < |window| => Summary(window[i])), Paginate(|rows|, current))
  }

  /** A page from the first to the last holds between one and a hundred rows, the ones at
      positions `from` up to `to`, and says whether a page follows or precedes it. */
  lemma PageWindow(total: nat, currentPage: int)
    requires 1 <= currentPage <= LastPage(total)
    ensures var p := Paginate(total, currentPage);
            && 0 <= p.from < p.to <= total && p.to - p.from <= PerPage
            && p.from == (currentPage - 1) * PerPage
            && (p.nextPage.Some? <==> currentPage < p.lastPage)
            && (p.prevPage.Some? <==> currentPage > 1)
  {
  }

  /** The summaries of a page in range are those of rows `from` to `to`, in row order. */
  lemma SearchPageContents(year: Option<string>, page: Option<string>, rows: seq<SearchRow>)
    requires PageAccepted(page) && YearAccepted(year)
    requires 1 <= CurrentPage(page) <= LastPage(|rows|)
    ensures var r := Search(year, page, rows);
            var from := r.pagination.from;
            && |r.data| == r.pagination.to - from
            && forall i :: 0 <= i < |r.data| ==> r.data[i] == Summary(rows[from + i])
  {
    PageWindow(|rows|, CurrentPage(page));
  }

  /** Past the last page, and on page 0, there are no rows and no next page beyond. */
  lemma EmptyPages(rows: seq<SearchRow>, currentPage: int)
    requires currentPage > LastPage(|rows|) || currentPage == 0
    ensures PageRows(rows, currentPage) == []
    ensures currentPage > LastPage(|rows|) ==> Paginate(|rows|, currentPage).nextPage.None?
  {
    var p := Paginate(|rows|, currentPage);
    if currentPage > LastPage(|rows|) {
      assert (currentPage - 1) * PerPage >= LastPage(|rows|) * PerPage;
      assert p.to == |rows| <= p.from;
    }
  }

  /** `page=0` passes validation and shows an empty page whose window starts before the
      first row. */
  lemma PageZero(year: Option<string>, rows: seq<SearchRow>)
    requires YearAccepted(year)
    ensures var r := Search(year, Some("0"), rows);
            && r.SearchPage? && r.data == []
            && r.pagination.currentPage == 0 && r.pagination.from == -100 && r.pagination.to == 0
            && r.pagination.prevPage.None?
  {
    assert AllDigits("0");
    assert ParseDecimal("0") == 0 by {
      assert "0"[..0] == [];
    }
    EmptyPages(rows, 0);
  }

  /** The rows of pages 1 to `k`, one page after another. */
  function PagesUpTo(rows: seq<SearchRow>, k: nat): seq<SearchRow>
  {
    if k == 0 then [] else PagesUpTo(rows, k - 1) + PageRows(rows, k)
  }

  /** Page `k`, from the first on, holds the rows from `100 (k - 1)` to `100 k`, cut off at
      the last row. */
  lemma PageRowsRange(rows: seq<SearchRow>, k: nat)
    requires k > 0
    ensures Min((k - 1) * PerPage, |rows|) <= Min(k * PerPage, |rows|)
    ensures PageRows(rows, k) == rows[Min((k - 1) * PerPage, |rows|)..Min(k * PerPage, |rows|)]
  {
    var p := Paginate(|rows|, k);
    if p.from >= |rows| {
      assert PageRows(rows, k) == [];
    } else {
      assert PageRows(rows, k) == rows[p.from..p.to];
    }
  }

  /** Pages partition the rows: reading pages 1 to `k` in turn gives the first `100 k` rows
      exactly once each, in order. */
  lemma {:induction false} PagesCover(rows: seq<SearchRow>, k: nat)
    ensures PagesUpTo(rows, k) == rows[..Min(k * PerPage, |rows|)]
  {
    if k > 0 {
      PagesCover(rows, k - 1);
      PageRowsRange(rows, k);
      var before, after := Min((k - 1) * PerPage, |rows|), Min(k * PerPage, |rows|);
      assert rows[..before] + rows[before..after] == rows[..after];
    }
  }

  /** So the pages up to the last one show every row exactly once. */
  lemma AllPagesShowAllRows(rows: seq<SearchRow>)
    ensures PagesUpTo(rows, LastPage(|rows|)) == rows
  {
    PagesCover(rows, LastPage(|rows|));
    assert rows[..|rows|] == rows;
  }

  // ---------------------------------------------------------------------------------
  // parseRatingValue

  /** The end of the run of digits starting at `k`. */
  function RunEnd(s: string, k: nat): (e: nat)
    requires k <= |s|
    ensures k <= e <= |s| && (e == |s| || !IsDigit(s[e]))
    ensures forall j :: k <= j < e ==> IsDigit(s[j])
    decreases |s| - k
  {
    if k < |s| && IsDigit(s[k]) then RunEnd(s, k + 1) else k
  }

  lemma RunIsDigits(s: string, k: nat)
    requires k <= |s|
    ensures AllDigits(s[k..RunEnd(s, k)])
  {
    var e := RunEnd(s, k);
    assert forall i :: 0 <= i < e - k ==> s[k..e][i] == s[k + i];
  }

  /** `/(\d+)%/` matches at `k`: greedy digits can only give back digits, so the whole run
      from `k` must be followed by `%`. */
  predicate PercentAt(s: string, k: int)
  {
    0 <= k < |s| && IsDigit(s[k]) && RunEnd(s, k) < |s| && s[RunEnd(s, k)] == '%'
  }

  predicate SlashDigits(s: string, e: int)
  {
    0 <= e && e + 1 < |s| && s[e] == '/' && IsDigit(s[e + 1])
  }

  /** Where `/(\d+(\.\d+)?)\/\d+/` matching at `k` ends its first group, if it matches there:
      either a run of digits, a point and a run of digits, or a run of digits alone, then
      `/` and a digit. */
  function FractionEnd(s: string, k: nat): (e: Option<nat>)
    requires k < |s|
    ensures e.Some? ==> k < e.value < |s| && SlashDigits(s, e.value)
  {
    if !IsDigit(s[k]) then None
    else
      var e1 := RunEnd(s, k);
      if e1 + 1 < |s| && s[e1] == '.' && IsDigit(s[e1 + 1]) && SlashDigits(s, RunEnd(s, e1 + 1)) then Some(RunEnd(s, e1 + 1))
      else if SlashDigits(s, e1) then Some(e1)
      else None
  }

  predicate FractionAt(s: string, k: int)
  {
    0 <= k < |s| && FractionEnd(s, k).Some?
  }

  /** The leftmost position from `from` where the percentage expression matches. */
  function FindPercent(s: string, from: nat): (r: Option<nat>)
    requires from <= |s|
    ensures r.Some? ==> from <= r.value && PercentAt(s, r.value)
    ensures r.Some? ==> forall k :: from <= k < r.value ==> !PercentAt(s, k)
    ensures r.None? ==> forall k :: from <= k ==> !PercentAt(s, k)
    decreases |s| - from
  {
    if from == |s| then None
    else if PercentAt(s, from) then Some(from)
    else FindPercent(s, from + 1)
  }

  /** The leftmost position from `from` where the fraction expression matches. */
  function FindFraction(s: string, from: nat): (r: Option<nat>)
    requires from <= |s|
    ensures r.Some? ==> from <= r.value && FractionAt(s, r.value)
    ensures r.Some? ==> forall k :: from <= k < r.value ==> !FractionAt(s, k)
    ensures r.None? ==> forall k :: from <= k ==> !FractionAt(s, k)
    decreases |s| - from
  {
    if from == |s| then None
    else if FractionAt(s, from) then Some(from)
    else FindFraction(s, from + 1)
  }

  /** A parsed rating: the integer of a percentage, or the numeral of a fraction's
      numerator, which `parseFloat` reads. */
  datatype RatingValue = Percent(n: nat) | Score(numeral: string)

  /** `parseRatingValue(value)`: a percentage anywhere wins; then a fraction; else null. */
  function ParseRatingValue(value: string): (r: Option<RatingValue>)
    ensures (r.Some? && r.value.Percent?) <==> exists k :: PercentAt(value, k)
    ensures r.Some? && r.value.Percent? ==>
              exists k :: && PercentAt(value, k) && (forall j :: 0 <= j < k ==> !PercentAt(value, j))
                          && AllDigits(value[k..RunEnd(value, k)])
                          && r.value.n == ParseDecimal(value[k..RunEnd(value, k)])
    ensures r.Some? && r.value.Score? ==>
              && (forall k :: !PercentAt(value, k))
              && exists k :: && FractionAt(value, k) && (forall j :: 0 <= j < k ==> !FractionAt(value, j))
                             && r.value.numeral == value[k..FractionEnd(value, k).value]
    ensures r.None? <==> (forall k :: !PercentAt(value, k)) && (forall k :: !FractionAt(value, k))
  {
    var percent := FindPercent(value, 0);
    if percent.Some? then
      var k := percent.value;
      RunIsDigits(value, k);
      Some(Percent(ParseDecimal(value[k..RunEnd(value, k)])))
    else
      var fraction := FindFraction(value, 0);
      if fraction.Some? then Some(Score(value[fraction.value..FractionEnd(value, fraction.value).value]))
      else None
  }

  /** The three rating sources' usual shapes, and a percentage after a fraction. */
  lemma RatingExamples()
    ensures ParseRatingValue("7.9/10") == Some(Score("7.9"))
    ensures ParseRatingValue("74/100") == Some(Score("74"))
    ensures ParseRatingValue("N/A") == None
  {
    var imdb := "7.9/10";
    assert RunEnd(imdb, 0) == 1 && RunEnd(imdb, 2) == 3 && RunEnd(imdb, 4) == 6 && RunEnd(imdb, 5) == 6;
    assert forall k :: !PercentAt(imdb, k);
    assert FractionEnd(imdb, 0) == Some(3);
    assert FindFraction(imdb, 0) == Some(0);
    assert imdb[0..3] == "7.9";
    var metacritic := "74/100";
    assert RunEnd(metacritic, 0) == 2 && RunEnd(metacritic, 1) == 2;
    assert RunEnd(metacritic, 3) == 6 && RunEnd(metacritic, 4) == 6 && RunEnd(metacritic, 5) == 6;
    assert forall k :: !PercentAt(metacritic, k);
    assert FractionEnd(metacritic, 0) == Some(2);
    assert FindFraction(metacritic, 0) == Some(0);
    assert metacritic[0..2] == "74";
    assert forall k :: !PercentAt("N/A", k) && !FractionAt("N/A", k);
  }

  lemma PercentExamples()
    ensures ParseRatingValue("87%") == Some(Percent(87))
    ensures ParseRatingValue("7/10 80%") == Some(Percent(80))
  {
    assert RunEnd("87%", 0) == 2;
    assert PercentAt("87%", 0);
    assert "87%"[0..2] == "87";
    ParseDecimal2("87");
    assert RunEnd("7/10 80%", 5) == 7;
    assert PercentAt("7/10 80%", 5);
    assert forall j :: 0 <= j < 5 ==> !PercentAt("7/10 80%", j);
    assert "7/10 80%"[5..7] == "80";
    ParseDecimal2("80");
  }

  // ---------------------------------------------------------------------------------
  // GET /movies/data/:imdbID

  /** A row of `basics` left-joined with `principals` and `ratings`. */
  datatype DetailRow = DetailRow(
    originalTitle: Option<string>, year: Option<int>, runtimeMinutes: Option<int>,
    genres: Option<string>, country: Option<string>,
    principalId: Option<int>, nconst: Option<string>, name: Option<string>,
    category: Option<string>, characters: Option<string>,
    source: Option<string>, value: Option<string>,
    boxoffice: Option<int>, poster: Option<string>, plot: Option<string>)

  datatype Principal = Principal(id: Option<string>, category: Option<string>, name: Option<string>, characters: Characters)

  datatype Rating = Rating(source: string, value: RatingValue)

  datatype MovieDetail = MovieDetail(
    title: Option<string>, year: Option<int>, runtime: Option<int>, genres: seq<string>,
    country: Option<string>, principals: seq<Principal>, ratings: seq<Rating>,
    boxoffice: Option<int>, poster: Option<string>, plot: Option<string>)

  datatype DetailResponse = DetailRefused(status: int, message: string) | Found(detail: MovieDetail)

  /** `row.genres ? row.genres.split(",") : []`. */
  function GenresOf(raw: Option<string>): (g: seq<string>)
    ensures !TruthyString(raw) ==> g == []
    ensures TruthyString(raw) ==> |g| >= 1 && Join(g, ',') == raw.value && forall i :: 0 <= i < |g| ==> ',' !in g[i]
  {
    if TruthyString(raw) then Split(raw.value, ',') else []
  }

  /** A principal row is keyed by its truthy `principals.id`. */
  function PrincipalKey(row: DetailRow): Option<int>
  {
    if row.principalId.Some? && row.principalId.value != 0 then row.principalId else None
  }

  function PrincipalOf(row: DetailRow): (p: Principal)
    ensures p.id == row.nconst && p.category == row.category && p.name == row.name
    ensures p.characters == CharactersOf(row.characters)
  {
    Principal(row.nconst, row.category, row.name, CharactersOf(row.characters))
  }

  /** A rating row takes part when its source and value are both truthy; it is keyed by
      its source. */
  function RatingKey(row: DetailRow): Option<string>
  {
    if TruthyString(row.source) && TruthyString(row.value) then row.source else None
  }

  /** `parseRatingValue(row.value)`, kept as `{source, value}` unless it is null. */
  function RatingOf(row: DetailRow): (r: Option<Rating>)
    ensures r.Some? <==> row.source.Some? && row.value.Some? && ParseRatingValue(row.value.value).Some?
    ensures r.Some? ==> r.value.source == row.source.value && Some(r.value.value) == ParseRatingValue(row.value.value)
  {
    if row.source.Some? && row.value.Some? then
      match ParseRatingValue(row.value.value)
      case Some(v) => Some(Rating(row.source.value, v))
      case None => None
    else None
  }

  /** The principals: one per distinct truthy id, from the row where it first appears. */
  function PrincipalsOf(rows: seq<DetailRow>): (r: seq<Principal>)
    ensures forall p :: p in r <==> exists i :: IsFirst(rows, PrincipalKey, i) && p == PrincipalOf(rows[i])
  {
    Gather(rows, FirstIndices(rows, PrincipalKey), PrincipalOf)
  }

  /** The ratings: the first row with each source claims it, and is kept if its value
      parses. */
  function RatingsOf(rows: seq<DetailRow>): (r: seq<Rating>)
    ensures forall x :: x in r <==> exists i :: IsFirst(rows, RatingKey, i) && RatingOf(rows[i]) == Some(x)
  {
    Present(Gather(rows, FirstIndices(rows, RatingKey), RatingOf))
  }

  /** The `forEach` over the rows with the `uniquePrincipalIds` set. */
  method CollectPrincipals(rows: seq<DetailRow>) returns (principals: seq<Principal>)
    ensures principals == PrincipalsOf(rows)
  {
    var uniquePrincipalIds: set<int> := {};
    principals := [];
    for i := 0 to |rows|
      invariant uniquePrincipalIds == KeysOf(rows[..i], PrincipalKey)
      invariant principals == Gather(rows, FirstIndices(rows[..i], PrincipalKey), PrincipalOf)
    {
      var row := rows[i];
      Step(rows, PrincipalKey, i);
      FirstIffUnseen(rows, PrincipalKey, i);
      if row.principalId.Some? && row.principalId.value != 0 && row.principalId.value !in uniquePrincipalIds {
        uniquePrincipalIds := uniquePrincipalIds + {row.principalId.value};
        GatherSnoc(rows, FirstIndices(rows[..i], PrincipalKey), i, PrincipalOf);
        principals := principals + [PrincipalOf(row)];
      }
    }
    assert rows[..|rows|] == rows;
  }

  /** One step of the `reduce`: a row with a truthy source and value whose source is not
      yet seen claims the source and adds its rating if it parses; any other row changes
      nothing. */
  lemma RatingStep(rows: seq<DetailRow>, i: nat, seen: set<string>, ratings: seq<Rating>)
    requires i < |rows| && seen == KeysOf(rows[..i], RatingKey) && ratings == RatingsOf(rows[..i])
    ensures var row := rows[i];
            if TruthyString(row.source) && TruthyString(row.value) && row.source.value !in seen then
              && seen + {row.source.value} == KeysOf(rows[..i + 1], RatingKey)
              && ratings + (if RatingOf(row).Some? then [RatingOf(row).value] else []) == RatingsOf(rows[..i + 1])
            else
              seen == KeysOf(rows[..i + 1], RatingKey) && ratings == RatingsOf(rows[..i + 1])
  {
    Step(rows, RatingKey, i);
    FirstIffUnseen(rows, RatingKey, i);
    PresentFirstStep(rows, RatingKey, RatingOf, i);
  }

  /** The `filter` and `reduce` over the rows with the `uniqueRatings` set. */
  method CollectRatings(rows: seq<DetailRow>) returns (ratings: seq<Rating>)
    ensures ratings == RatingsOf(rows)
  {
    var uniqueRatings: set<string> := {};
    ratings := [];
    for i := 0 to |rows|
      invariant uniqueRatings == KeysOf(rows[..i], RatingKey)
      invariant ratings == RatingsOf(rows[..i])
    {
      var row := rows[i];
      RatingStep(rows, i, uniqueRatings, ratings);
      if TruthyString(row.source) && TruthyString(row.value) && row.source.value !in uniqueRatings {
        uniqueRatings := uniqueRatings + {row.source.value};
        var rating := RatingOf(row);
        if rating.Some? {
          ratings := ratings + [rating.value];
        }
      }
    }
    assert rows[..|rows|] == rows;
  }

  /** `/movies/data/:imdbID`; `query` holds the names of the query parameters. */
  method MovieData(query: set<string>, rows: seq<DetailRow>) returns (r: DetailResponse)
    ensures query != {} ==> r == DetailRefused(400, MsgQueryParams)
    ensures query == {} && rows == [] ==> r == DetailRefused(404, MsgNoMovie)
    ensures r.Found? <==> query == {} && rows != []
    ensures r.Found? ==>
              var first, d := rows[0], r.detail;
              && d.principals == PrincipalsOf(rows) && d.ratings == RatingsOf(rows)
              && d.genres == GenresOf(first.genres)
              && d.title == first.originalTitle && d.year == first.year && d.runtime == first.runtimeMinutes
              && d.country == first.country && d.boxoffice == first.boxoffice
              && d.poster == first.poster && d.plot == first.plot
  {
    if query != {} {
      return DetailRefused(400, MsgQueryParams);
    }
    if |rows| == 0 {
      return DetailRefused(404, MsgNoMovie);
    }
    var first := rows[0];
    var genres := GenresOf(first.genres);
    var principals := CollectPrincipals(rows);
    var ratings := CollectRatings(rows);
    r := Found(MovieDetail(first.originalTitle, first.year, first.runtimeMinutes, genres, first.country,
                           principals, ratings, first.boxoffice, first.poster, first.plot));
  }

  /** Each truthy principal id yields exactly one entry, from the row where it first
      appears, and the entries follow the order of those rows. */
  lemma PrincipalsOnePerId(rows: seq<DetailRow>)
    ensures var idx := FirstIndices(rows, PrincipalKey);
            && |PrincipalsOf(rows)| == |KeysOf(rows, PrincipalKey)|
            && (forall a :: 0 <= a < |idx| ==> PrincipalsOf(rows)[a] == PrincipalOf(rows[idx[a]]))
            && (forall a, b :: 0 <= a < b < |idx| ==> idx[a] < idx[b] && PrincipalKey(rows[idx[a]]) != PrincipalKey(rows[idx[b]]))
            && (forall i :: 0 <= i < |rows| && PrincipalKey(rows[i]).Some? ==>
                  exists a :: 0 <= a < |idx| && idx[a] <= i && PrincipalKey(rows[idx[a]]) == PrincipalKey(rows[i]))
  {
    FirstCount(rows, PrincipalKey, |rows|);
    assert rows[..|rows|] == rows;
    FirstKeysDistinct(rows, PrincipalKey);
    forall i | 0 <= i < |rows| && PrincipalKey(rows[i]).Some?
      ensures exists a :: 0 <= a < |FirstIndices(rows, PrincipalKey)| && FirstIndices(rows, PrincipalKey)[a] <= i &&
                          PrincipalKey(rows[FirstIndices(rows, PrincipalKey)[a]]) == PrincipalKey(rows[i])
    {
      FirstCovers(rows, PrincipalKey, i);
    }
  }

  /** No two ratings share a source. */
  lemma RatingSourcesDistinct(rows: seq<DetailRow>)
    ensures var ratings := RatingsOf(rows);
            forall a, b :: 0 <= a < b < |ratings| ==> ratings[a].source != ratings[b].source
  {
    var idx := FirstIndices(rows, RatingKey);
    var g := Gather(rows, idx, RatingOf);
    FirstKeysDistinct(rows, RatingKey);
    forall a, b | 0 <= a < b < |g| && g[a].Some? && g[b].Some?
      ensures g[a].value.source != g[b].value.source
    {
      assert RatingKey(rows[idx[a]]) == Some(g[a].value.source);
      assert RatingKey(rows[idx[b]]) == Some(g[b].value.source);
    }
    PresentInjective(g, (x: Rating) => x.source);
  }

  /** The first row with a source claims it even when its value does not parse: the
      source is then missing from the ratings, whatever later rows hold. */
  lemma UnparsedClaimDropsSource(rows: seq<DetailRow>, i: nat)
    requires IsFirst(rows, RatingKey, i) && ParseRatingValue(rows[i].value.value).None?
    ensures forall x :: x in RatingsOf(rows) ==> x.source != rows[i].source.value
  {
    var idx := FirstIndices(rows, RatingKey);
    var g := Gather(rows, idx, RatingOf);
    forall x | x in RatingsOf(rows)
      ensures x.source != rows[i].source.value
    {
      assert Some(x) in g;
      var a :| 0 <= a < |g| && g[a] == Some(x);
      var j := idx[a];
      assert IsFirst(rows, RatingKey, j);
      assert RatingKey(rows[j]) == Some(x.source);
    }
  }

  /** A source whose first row's value parses appears among the ratings with that value. */
  lemma ParsedClaimKept(rows: seq<DetailRow>, i: nat)
    requires IsFirst(rows, RatingKey, i) && ParseRatingValue(rows[i].value.value).Some?
    ensures Rating(rows[i].source.value, ParseRatingValue(rows[i].value.value).value) in RatingsOf(rows)
  {
    var idx := FirstIndices(rows, RatingKey);
    var g := Gather(rows, idx, RatingOf);
    var a :| 0 <= a < |idx| && idx[a] == i;
    assert g[a] == RatingOf(rows[i]);
  }
}
