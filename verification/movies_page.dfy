/** The movie search page (MoviesPage.jsx): the request its query sends,
    how the answer is checked, the pagination buttons and the
    "Showing a - b of n" line. */
module MoviesPage {
  import opened Common
  import AuthSession
  import AppRoutes

  /** Every request asks for this many movies. */
  const RequestLimit: int := 10

  /** The genre selector's "All Genres" entry. */
  const AllGenres: string := "all"

  /** The query string sent to `/api/movies/all`. */
  datatype Params = Params(
    page: int, limit: int, search: string, genre: string,
    yearFrom: int, yearTo: int, minRating: int)

  /** The request parameters built from the query key: the slider's two
      ends become the year bounds and "all" becomes the empty genre. */
  function FetchParams(page: int, search: string, genre: string, year: (int, int), minRating: int): (p: Params)
    ensures p.limit == RequestLimit
    ensures p.page == page && p.search == search && p.minRating == minRating
    ensures p.yearFrom == year.0 && p.yearTo == year.1
    ensures genre == AllGenres ==> p.genre == ""
    ensures genre != AllGenres ==> p.genre == genre
  {
    Params(page, RequestLimit, search, if genre == AllGenres then "" else genre, year.0, year.1, minRating)
  }

  datatype Movie = Movie(tmdbId: int, title: string)

  /** The JSON body of a successful answer; absent fields are `None`. A
      `totalPages` of `None` stands for `undefined`. */
  datatype Data = Data(
    movies: Option<seq<Movie>>, currentPage: int, totalPages: Option<int>,
    totalMovies: int, moviesPerPage: int)

  /** How the request settles: rejected by `authAxios`, or answered with a
      body that may be missing. */
  datatype Reply = Rejected | Answered(data: Option<Data>)

  datatype FetchError = NotAuthenticated | RequestFailed | InvalidResponseFormat

  datatype Fetch = Fetch(sent: Option<Params>, result: Result)
  datatype Result = Failed(error: FetchError) | Loaded(data: Data)

  /** `fetchMovies`: nothing is sent without authentication; a body without
      `movies` is an error, while an empty movie list is an answer. */
  function FetchMovies(isAuthenticated: bool, p: Params, reply: Reply): (f: Fetch)
    ensures f.sent.Some? <==> isAuthenticated
    ensures f.sent.Some? ==> f.sent.value == p
    ensures f.result == Failed(NotAuthenticated) <==> !isAuthenticated
    ensures isAuthenticated && reply.Rejected? ==> f.result == Failed(RequestFailed)
    ensures f.result.Loaded? <==>
      isAuthenticated && reply.Answered? && reply.data.Some? && reply.data.value.movies.Some?
    ensures f.result.Loaded? ==> f.result.data == reply.data.value
  {
    if !isAuthenticated then Fetch(None, Failed(NotAuthenticated))
    else
      match reply
      case Rejected => Fetch(Some(p), Failed(RequestFailed))
      case Answered(body) =>
        if body.None? || body.value.movies.None? then Fetch(Some(p), Failed(InvalidResponseFormat))
        else Fetch(Some(p), Loaded(body.value))
  }

  /** An answer carrying an empty movie list is accepted. */
  lemma EmptyListIsNotAnError(p: Params, d: Data)
    requires d.movies == Some([])
    ensures FetchMovies(true, p, Answered(Some(d))).result == Loaded(d)
  {
  }

  /** `data?.totalPages || 1`: no data, an undefined count and a zero count
      all fall back to one page. */
  function PageBound(data: Option<Data>): (b: int)
    ensures data.None? || data.value.totalPages.None? ==> b == 1
    ensures data.Some? && data.value.totalPages == Some(0) ==> b == 1
    ensures data.Some? && data.value.totalPages.Some? && data.value.totalPages.value != 0 ==>
      b == data.value.totalPages.value
  {
    match data
    case None => 1
    case Some(d) =>
      match d.totalPages
      case None => 1
      case Some(n) => if n == 0 then 1 else n
  }

  /** `handlePageChange(newPage)`: the page moves only to a target between
      one and the page bound. */
  function HandlePageChange(current: int, data: Option<Data>, newPage: int): (r: int)
    ensures r == newPage <==> 0 < newPage <= PageBound(data) || newPage == current
    ensures r != newPage ==> r == current
  {
    if newPage > 0 && newPage <= PageBound(data) then newPage else current
  }

  /** The page state starts at 1. */
  const InitialPage: int := 1

  /** A sequence of page requests, each against the data showing then. */
  function Paginate(current: int, requests: seq<(Option<Data>, int)>): (r: int)
    decreases |requests|
  {
    if |requests| == 0 then current
    else Paginate(HandlePageChange(current, requests[0].0, requests[0].1), requests[1..])
  }

  /** The page number never drops below one, whatever is clicked. */
  lemma {:induction false} PageStaysPositive(current: int, requests: seq<(Option<Data>, int)>)
    requires current >= 1
    ensures Paginate(current, requests) >= 1
    decreases |requests|
  {
    if |requests| > 0 {
      PageStaysPositive(HandlePageChange(current, requests[0].0, requests[0].1), requests[1..]);
    }
  }

  /** The Previous button: disabled exactly on page one. */
  predicate PreviousDisabled(current: int) {
    current == 1
  }

  /** The Next button: disabled exactly when the page equals `totalPages`,
      which never holds while `totalPages` is undefined. */
  predicate NextDisabled(current: int, d: Data) {
    d.totalPages == Some(current)
  }

  /** A disabled button could not have changed the page anyway. */
  lemma DisabledButtonsWouldBeNoOps(current: int, d: Data)
    requires current >= 1
    ensures PreviousDisabled(current) ==> HandlePageChange(current, Some(d), current - 1) == current
    ensures NextDisabled(current, d) ==> HandlePageChange(current, Some(d), current + 1) == current
  {
  }

  /** Without a page count the Next button stays enabled but does nothing. */
  lemma NextWithoutPageCountIsInert(current: int, d: Data)
    requires current >= 1 && d.totalPages.None?
    ensures !NextDisabled(current, d)
    ensures HandlePageChange(current, Some(d), current + 1) == current
  {
  }

  /** The "Showing first - last of total" line. */
  datatype Range = Range(first: int, last: int, total: int)

  function Min(a: int, b: int): (m: int)
    ensures m <= a && m <= b && (m == a || m == b)
  {
    if a <= b then a else b
  }

  function ShownRange(d: Data): (r: Range)
    ensures r.last <= r.total && r.total == d.totalMovies
    ensures r.last <= d.currentPage * d.moviesPerPage
    ensures r.last == d.currentPage * d.moviesPerPage || r.last == d.totalMovies
    ensures r.first == (d.currentPage - 1) * d.moviesPerPage + 1
  {
    Range((d.currentPage - 1) * d.moviesPerPage + 1, Min(d.currentPage * d.moviesPerPage, d.totalMovies), d.totalMovies)
  }

  /** On a page that exists the line names a non-empty stretch of at most
      one page of movies, and the stretches of consecutive pages abut. */
  lemma {:induction false} RangeCoversOnePage(d: Data)
    requires d.currentPage >= 1 && d.moviesPerPage >= 1
    requires (d.currentPage - 1) * d.moviesPerPage < d.totalMovies
    ensures var r := ShownRange(d);
      && 1 <= r.first <= r.last <= r.total
      && r.last - r.first + 1 <= d.moviesPerPage
      && (r.last < r.total ==> r.last - r.first + 1 == d.moviesPerPage)
    ensures ShownRange(d.(currentPage := d.currentPage + 1)).first == ShownRange(d).last + 1 ||
            ShownRange(d).last == d.totalMovies
  {
    var cp, per := d.currentPage, d.moviesPerPage;
    assert cp * per == (cp - 1) * per + per;
    assert (cp - 1) * per >= 0;
  }

  /** The redirect effect: to the sign-in page once loading has finished
      without authentication. */
  predicate RedirectsToSignIn(s: AuthSession.Session) {
    !s.isLoading && !s.isAuthenticated
  }

  /** The page's own redirect agrees with the route guard around it. */
  lemma RedirectAgreesWithGuard(s: AuthSession.Session)
    ensures RedirectsToSignIn(s) <==>
      AppRoutes.ProtectedRoute(s, AppRoutes.Movies) == AppRoutes.RedirectTo(AppRoutes.GetStartedPath)
  {
  }

  /** Whatever page buttons were clicked, an authenticated fetch sends the
      page the pagination reached, which is at least 1, with the fixed limit;
      a signed-out fetch sends nothing. */
  lemma RequestCarriesCurrentPage(
    requests: seq<(Option<Data>, int)>, search: string, genre: string, year: (int, int),
    minRating: int, isAuthenticated: bool, reply: Reply)
    ensures var page := Paginate(InitialPage, requests);
      var f := FetchMovies(isAuthenticated, FetchParams(page, search, genre, year, minRating), reply);
      && (isAuthenticated ==> f.sent.Some? && f.sent.value.page == page && f.sent.value.page >= 1
                              && f.sent.value.limit == RequestLimit)
      && (!isAuthenticated ==> f.sent.None?)
  {
    PageStaysPositive(InitialPage, requests);
  }
}
