/** The profile page (UserProfile.jsx): its query cache entries, the
    optimistic watchlist removal with rollback, the in-place edits of the
    cached profile, the avatar initials and the review stars. */
module UserProfile {
  import opened Common

  /** The page's query keys. */
  datatype QueryKey = UserProfileKey | PredictedGenresKey | RecentActivityKey | UserReviewsKey | UserWatchlistKey

  /** A list-valued response field; `None` is a missing field. The four
      list fetchers answer `field || []`. */
  function ListOrEmpty<T>(field: Option<seq<T>>): (r: seq<T>)
    ensures field.None? ==> r == []
    ensures field.Some? ==> r == field.value
  {
    match field
    case None => []
    case Some(xs) => xs
  }

  // ---------------------------------------------------------------------------
  // Watchlist removal

  datatype WatchEntry = WatchEntry(tmdbId: int, movieTitle: string)

  /** The cached watchlist; `None` while the cache holds nothing. */
  type WatchCache = Option<seq<WatchEntry>>

  /** What `onMutate` leaves behind: the optimistic cache, and the snapshot it
      returns as the mutation context. */
  datatype Removal = Removal(optimistic: WatchCache, snapshot: WatchCache)

  function KeepOther(movieId: int): WatchEntry -> bool {
    (e: WatchEntry) => e.tmdbId != movieId
  }

  /** `onMutate(movieId)`: the snapshot is the cache as it was; the cache
      becomes the list without the movie's entries, and an empty list when
      there was none. */
  function OnMutate(cache: WatchCache, movieId: int): (r: Removal)
    ensures r.snapshot == cache
    ensures r.optimistic.Some?
    ensures cache.None? ==> r.optimistic.value == []
    ensures forall e :: e in r.optimistic.value ==> e.tmdbId != movieId
    ensures cache.Some? ==> forall e :: e in cache.value && e.tmdbId != movieId ==> e in r.optimistic.value
    ensures cache.Some? ==> forall e :: e in r.optimistic.value ==> e in cache.value
    ensures cache.Some? ==> forall e: WatchEntry :: e.tmdbId != movieId ==>
      multiset(r.optimistic.value)[e] == multiset(cache.value)[e]
  {
    match cache
    case None => Removal(Some([]), cache)
    case Some(list) => Removal(Some(Filter(KeepOther(movieId), list)), cache)
  }

  /** The cache and the invalidated queries once the mutation settles. */
  datatype Settled = Settled(cache: WatchCache, invalidated: set<QueryKey>)

  /** The whole mutation: the server's `succeeded` decides whether `onError`
      puts the snapshot back. Writing an absent snapshot is ignored by the
      query cache, so a failure on an empty cache keeps the empty list.
      `onSettled` invalidates both the watchlist and the recent activity
      either way. */
  function RemoveFromWatchlist(cache: WatchCache, movieId: int, succeeded: bool): (r: Settled)
    ensures r.invalidated == {UserWatchlistKey, RecentActivityKey}
    ensures !succeeded && cache.Some? ==> r.cache == cache
    ensures !succeeded && cache.None? ==> r.cache == Some([])
    ensures succeeded ==> r.cache == OnMutate(cache, movieId).optimistic
  {
    var m := OnMutate(cache, movieId);
    var restored := if m.snapshot.Some? then m.snapshot else m.optimistic;
    Settled(if succeeded then m.optimistic else restored, {UserWatchlistKey, RecentActivityKey})
  }

  /** Removing the same movie twice is removing it once. */
  lemma RemovalIsIdempotent(cache: WatchCache, movieId: int)
    ensures OnMutate(OnMutate(cache, movieId).optimistic, movieId).optimistic
         == OnMutate(cache, movieId).optimistic
  {
    var once := OnMutate(cache, movieId).optimistic.value;
    FilterIdentity(KeepOther(movieId), once);
  }

  /** Removing a movie that is not listed leaves the list as it was; removing
      one that is listed shortens it. */
  lemma RemovalChangesExactlyListedMovies(list: seq<WatchEntry>, movieId: int)
    ensures OnMutate(Some(list), movieId).optimistic == Some(list)
        <==> forall i :: 0 <= i < |list| ==> list[i].tmdbId != movieId
  {
    FilterIdentity(KeepOther(movieId), list);
  }

  // ---------------------------------------------------------------------------
  // Profile edits

  /** The cached profile; the optional fields may be missing. */
  datatype Profile = Profile(name: string, email: string, phoneNumber: Option<string>, bio: Option<string>)

  /** The three editable inputs; the email input is read-only. */
  datatype EditableField = Name | PhoneNumber | Bio

  /** An input's `onChange`: the cached profile gets the new value in that
      one field; an empty cache stays empty. */
  function Edit(cache: Option<Profile>, f: EditableField, v: string): (r: Option<Profile>)
    ensures r.Some? <==> cache.Some?
    ensures r.Some? ==> r.value.email == cache.value.email
    ensures r.Some? ==> (f == Name ==> r.value.name == v) && (f != Name ==> r.value.name == cache.value.name)
    ensures r.Some? ==> (f == PhoneNumber ==> r.value.phoneNumber == Some(v)) &&
                        (f != PhoneNumber ==> r.value.phoneNumber == cache.value.phoneNumber)
    ensures r.Some? ==> (f == Bio ==> r.value.bio == Some(v)) && (f != Bio ==> r.value.bio == cache.value.bio)
  {
    match cache
    case None => None
    case Some(p) =>
      Some(match f
           case Name => p.(name := v)
           case PhoneNumber => p.(phoneNumber := Some(v))
           case Bio => p.(bio := Some(v)))
  }

  /** The value an input shows: `userData?.phoneNumber || ""` and likewise. */
  function Shown(cache: Option<Profile>, f: EditableField): (s: string)
    ensures cache.None? ==> s == ""
  {
    match cache
    case None => ""
    case Some(p) =>
      match f
      case Name => p.name
      case PhoneNumber => p.phoneNumber.GetOr("")
      case Bio => p.bio.GetOr("")
  }

  /** After typing into one input, that input shows what was typed and the
      others show what they showed before; edits of different inputs
      commute. */
  lemma EditsAreIndependent(cache: Option<Profile>, f: EditableField, g: EditableField, v: string, w: string)
    requires cache.Some?
    ensures Shown(Edit(cache, f, v), f) == v
    ensures f != g ==> Shown(Edit(cache, f, v), g) == Shown(cache, g)
    ensures f != g ==> Edit(Edit(cache, f, v), g, w) == Edit(Edit(cache, g, w), f, v)
  {
  }

  // ---------------------------------------------------------------------------
  // Initials

  /** `s.split(" ")`: the pieces between single spaces, empty ones included. */
  function Split(s: string): (ws: seq<string>)
    ensures |ws| >= 1
    ensures forall i :: 0 <= i < |ws| ==> ' ' !in ws[i]
  {
    if |s| == 0 then [""]
    else
      var rest := Split(s[1..]);
      if s[0] == ' ' then [""] + rest
      else [[s[0]] + rest[0]] + rest[1..]
  }

  /** `words.map(n => n[0]).join("")`: an empty word's `n[0]` is undefined,
      which `join` renders as nothing. */
  function JoinFirsts(ws: seq<string>): (r: string)
    ensures |r| <= |ws|
  {
    if |ws| == 0 then ""
    else (if |ws[0]| == 0 then "" else [ws[0][0]]) + JoinFirsts(ws[1..])
  }

  /** The avatar fallback for a name. */
  function Initials(name: string): (r: string)
    ensures ' ' !in r
  {
    InitialsFromPositions(name);
    JoinFirsts(Split(name))
  }

  /** The letters that start a word: not a space, and first in the name or
      right after a space. `afterSpace` says whether the position before
      `s` starts a word. */
  function WordStarts(s: string, afterSpace: bool): (r: string)
    ensures ' ' !in r
  {
    if |s| == 0 then ""
    else (if s[0] != ' ' && afterSpace then [s[0]] else "") + WordStarts(s[1..], s[0] == ' ')
  }

  lemma {:induction false} WordStartsSplit(s: string)
    ensures WordStarts(s, false) == JoinFirsts(Split(s)[1..])
    ensures WordStarts(s, true) == JoinFirsts(Split(s))
  {
    if |s| > 0 {
      WordStartsSplit(s[1..]);
      var rest := Split(s[1..]);
      if s[0] == ' ' {
        assert Split(s) == [""] + rest;
        assert ([""] + rest)[1..] == rest;
      } else {
        var ws := [[s[0]] + rest[0]] + rest[1..];
        assert Split(s) == ws;
        assert ws[1..] == rest[1..];
      }
    }
  }

  /** The initials are exactly the letters that start a word, in order. */
  lemma InitialsFromPositions(name: string)
    ensures JoinFirsts(Split(name)) == WordStarts(name, true)
  {
    WordStartsSplit(name);
  }

  // ---------------------------------------------------------------------------
  // Review stars

  const StarCount: nat := 5

  /** `[...Array(5)].map((_, index) => index < rating)`: which stars are lit. */
  function Stars(rating: int): (lit: seq<bool>)
    ensures |lit| == StarCount
    ensures forall i :: 0 <= i < StarCount ==> (lit[i] <==> i < rating)
  {
    seq(StarCount, i => i < rating)
  }

  function CountLit(lit: seq<bool>): (n: nat)
    ensures n <= |lit|
  {
    if |lit| == 0 then 0 else (if lit[0] then 1 else 0) + CountLit(lit[1..])
  }

  /** Lit stars form a prefix: the first `k` stars are lit and the rest not. */
  lemma {:induction false} CountLitPrefix(lit: seq<bool>, k: nat)
    requires k <= |lit|
    requires forall i :: 0 <= i < |lit| ==> (lit[i] <==> i < k)
    ensures CountLit(lit) == k
    decreases |lit|
  {
    if |lit| > 0 {
      if k > 0 {
        CountLitPrefix(lit[1..], k - 1);
      } else {
        CountLitPrefix(lit[1..], 0);
      }
    }
  }

  /** A review shows its rating, cut to between none and five stars. */
  lemma LitStarsShowRating(rating: int)
    ensures rating <= 0 ==> CountLit(Stars(rating)) == 0
    ensures 0 <= rating <= 5 ==> CountLit(Stars(rating)) == rating
    ensures rating >= 5 ==> CountLit(Stars(rating)) == 5
  {
    var k: nat := if rating <= 0 then 0 else if rating >= 5 then 5 else rating;
    CountLitPrefix(Stars(rating), k);
  }
}
