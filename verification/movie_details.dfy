/** A movie's detail page (MovieDetailsPage.jsx): which queries run, the
    watchlist test and guard, the review form and its stars, and what the
    page shows while loading. */
module MovieDetails {
  import opened Common
  import UserProfile

  // ---------------------------------------------------------------------------
  // Route parameter to number

  predicate IsDigit(c: char) {
    '0' <= c <= '9'
  }

  predicate AllDigits(s: string) {
    forall i :: 0 <= i < |s| ==> IsDigit(s[i])
  }

  /** The value of a string of decimal digits. */
  function DecimalValue(s: string): (n: nat)
    requires AllDigits(s)
  {
    if |s| == 0 then 0
    else DecimalValue(s[..|s| - 1]) * 10 + (s[|s| - 1] as int - '0' as int)
  }

  /** `Number(s)` for the strings a route parameter holds: the empty string
      is 0, a run of decimal digits is its value, anything else is `NaN`
      (`None`). */
  function JsNumber(s: string): (r: Option<nat>)
    ensures r.Some? <==> AllDigits(s)
    ensures s == "" ==> r == Some(0)
  {
    if AllDigits(s) then Some(DecimalValue(s)) else None
  }

  /** The decimal spelling of an id, as the movie list writes it into a
      `/movies/${tmdbId}` link. */
  function Decimal(n: nat): (s: string)
    ensures |s| >= 1 && AllDigits(s)
  {
    var d := [('0' as int + n % 10) as char];
    if n < 10 then d else Decimal(n / 10) + d
  }

  /** Reading back a spelled-out id gives the id. */
  lemma {:induction false} NumberOfDecimal(n: nat)
    ensures JsNumber(Decimal(n)) == Some(n)
    decreases n
  {
    var s := Decimal(n);
    var last := ('0' as int + n % 10) as char;
    assert s[|s| - 1] == last;
    if n >= 10 {
      NumberOfDecimal(n / 10);
      assert s[..|s| - 1] == Decimal(n / 10);
      assert DecimalValue(s) == DecimalValue(Decimal(n / 10)) * 10 + n % 10;
    } else {
      assert s[..|s| - 1] == [];
      assert DecimalValue(s) == DecimalValue([]) * 10 + n % 10;
    }
  }

  // ---------------------------------------------------------------------------
  // Watchlist

  /** The fields of the cached profile this page reads. */
  datatype ProfileData = ProfileData(watchlist: Option<seq<int>>)

  /** `userProfile?.watchlist?.includes(Number(tmdbId))`, with `undefined`
      read as false. `NaN` is never in a list of ids. */
  predicate IsInWatchlist(profile: Option<ProfileData>, tmdbId: string) {
    && profile.Some?
    && profile.value.watchlist.Some?
    && JsNumber(tmdbId).Some?
    && JsNumber(tmdbId).value in profile.value.watchlist.value
  }

  /** The test finds a listed movie reached through its detail link, and only
      a listed one. */
  lemma WatchlistTestFindsLinkedMovie(ids: seq<int>, id: nat)
    ensures IsInWatchlist(Some(ProfileData(Some(ids))), Decimal(id)) <==> id in ids
  {
    NumberOfDecimal(id);
  }

  /** Without a loaded profile or watchlist the movie counts as not listed. */
  lemma AbsentProfileListsNothing(tmdbId: string)
    ensures !IsInWatchlist(None, tmdbId)
    ensures !IsInWatchlist(Some(ProfileData(None)), tmdbId)
  {
  }

  /** Every id spelled out in a detail link reads back as itself. */
  lemma DecimalsReadBack()
    ensures forall id: nat :: JsNumber(Decimal(id)) == Some(id)
  {
    forall id: nat ensures JsNumber(Decimal(id)) == Some(id) {
      NumberOfDecimal(id);
    }
  }

  /** `handleAddToWatchlist`: whether the add mutation is started. It is
      started unless the loaded watchlist holds the movie the link names. */
  function HandleAddToWatchlist(profile: Option<ProfileData>, tmdbId: string): (mutates: bool)
    ensures profile.None? || profile.value.watchlist.None? ==> mutates
    ensures JsNumber(tmdbId).None? ==> mutates
    ensures forall id: nat :: tmdbId == Decimal(id) && profile.Some? && profile.value.watchlist.Some? ==>
      (mutates <==> id !in profile.value.watchlist.value)
  {
    DecimalsReadBack();
    !IsInWatchlist(profile, tmdbId)
  }

  /** The add button's `disabled` attribute: set exactly when the loaded
      watchlist holds the movie the link names. */
  function AddButtonDisabled(profile: Option<ProfileData>, tmdbId: string): (disabled: bool)
    ensures profile.None? || profile.value.watchlist.None? ==> !disabled
    ensures JsNumber(tmdbId).None? ==> !disabled
    ensures forall id: nat :: tmdbId == Decimal(id) && profile.Some? && profile.value.watchlist.Some? ==>
      (disabled <==> id in profile.value.watchlist.value)
  {
    DecimalsReadBack();
    IsInWatchlist(profile, tmdbId)
  }

  /** An enabled button always adds, a disabled one could not: a listed
      movie is never added twice through this page. */
  lemma AddButtonMatchesGuard(profile: Option<ProfileData>, tmdbId: string)
    ensures HandleAddToWatchlist(profile, tmdbId) <==> !AddButtonDisabled(profile, tmdbId)
  {
  }

  // ---------------------------------------------------------------------------
  // Queries

  /** Which of the three queries are enabled. */
  datatype Enabled = Enabled(movie: bool, profile: bool, reviews: bool)

  function QueriesEnabled(tmdbId: string, isAuthenticated: bool): (e: Enabled)
    ensures e.movie <==> tmdbId != "" && isAuthenticated
    ensures e.reviews == e.movie
    ensures e.profile <==> isAuthenticated
  {
    var withId := |tmdbId| > 0 && isAuthenticated;
    Enabled(withId, isAuthenticated, withId)
  }

  /** Nothing is fetched for a signed-out visitor, and once loading ends
      such a visitor is redirected to the sign-in page. */
  lemma SignedOutFetchesNothing(tmdbId: string, authLoading: bool, movieLoading: bool)
    ensures QueriesEnabled(tmdbId, false) == Enabled(false, false, false)
    ensures !authLoading && !movieLoading ==> Render(authLoading, movieLoading, false) == RedirectToSignIn
  {
  }

  /** The details of a linked movie are shown only while all three queries
      are enabled. */
  lemma DetailsOnlyWithQueriesEnabled(tmdbId: string, authLoading: bool, movieLoading: bool, isAuthenticated: bool)
    requires tmdbId != ""
    ensures Render(authLoading, movieLoading, isAuthenticated) == Details ==>
      QueriesEnabled(tmdbId, isAuthenticated) == Enabled(true, true, true)
  {
  }

  // ---------------------------------------------------------------------------
  // Review form

  /** `userRating` and `userReview`. */
  datatype ReviewForm = ReviewForm(rating: int, text: string)

  const EmptyReview: ReviewForm := ReviewForm(0, "")

  /** A star button's click, `handleRating(star)`. */
  function HandleRating(f: ReviewForm, star: int): (f': ReviewForm)
    ensures f'.rating == star && f'.text == f.text
  {
    f.(rating := star)
  }

  /** The review request's body, and the form once the mutation settles,
      with whether the reviews query was invalidated. */
  datatype ReviewSubmit = ReviewSubmit(sentRating: int, sentComment: string, form: ReviewForm, reviewsInvalidated: bool)

  /** `handleReviewSubmit`: the current rating and text are posted; success
      empties the form and invalidates the reviews; failure changes
      nothing. */
  function SubmitReview(f: ReviewForm, succeeded: bool): (r: ReviewSubmit)
    ensures r.sentRating == f.rating && r.sentComment == f.text
    ensures r.reviewsInvalidated <==> succeeded
    ensures succeeded ==> r.form == EmptyReview
    ensures !succeeded ==> r.form == f
  {
    if succeeded then ReviewSubmit(f.rating, f.text, EmptyReview, true)
    else ReviewSubmit(f.rating, f.text, f, false)
  }

  /** Stars `1` to `5`: star `k` (at index `k - 1`) is highlighted when
      `k <= userRating`. */
  function HighlightedStars(rating: int): (h: seq<bool>)
    ensures |h| == 5
    ensures forall i :: 0 <= i < 5 ==> (h[i] <==> i + 1 <= rating)
  {
    seq(5, i => i + 1 <= rating)
  }

  /** Clicking star `k` highlights it and every star before it, and no
      other; a rating shows the same stars here as on the profile page. */
  lemma ClickedStarAndBelowHighlighted(f: ReviewForm, k: int)
    requires 1 <= k <= 5
    ensures var h := HighlightedStars(HandleRating(f, k).rating);
      forall i :: 0 <= i < 5 ==> (h[i] <==> i < k)
    ensures HighlightedStars(k) == UserProfile.Stars(k)
  {
  }

  /** The rating a star click sets is the rating posted; a successful post
      turns every star off, and a failed one leaves the stars as they were. */
  lemma SubmitAfterRating(f: ReviewForm, star: int, succeeded: bool)
    ensures SubmitReview(HandleRating(f, star), succeeded).sentRating == star
    ensures succeeded ==> forall i :: 0 <= i < 5 ==> !HighlightedStars(SubmitReview(f, true).form.rating)[i]
    ensures !succeeded ==> HighlightedStars(SubmitReview(f, false).form.rating) == HighlightedStars(f.rating)
  {
  }

  // ---------------------------------------------------------------------------
  // What the page renders

  datatype Screen = Skeleton | RedirectToSignIn | Details

  /** The skeleton shows while the session or the movie is loading; only
      after that does a signed-out visitor get sent to the sign-in page. */
  function Render(authLoading: bool, movieLoading: bool, isAuthenticated: bool): (sc: Screen)
    ensures sc == Skeleton <==> authLoading || movieLoading
    ensures sc == RedirectToSignIn <==> !authLoading && !movieLoading && !isAuthenticated
    ensures sc == Details ==> isAuthenticated
  {
    if authLoading || movieLoading then Skeleton
    else if !isAuthenticated then RedirectToSignIn
    else Details
  }

  /** A loading session never redirects, whatever it will turn out to be. */
  lemma LoadingNeverRedirects(movieLoading: bool, isAuthenticated: bool)
    ensures Render(true, movieLoading, isAuthenticated) == Skeleton
  {
  }
}
