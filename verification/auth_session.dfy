/** The client's session provider (unit/hooks/AuthContext.jsx): the two
    session flags, the actions that change them, and the response
    interceptor that turns one 401 into one refresh and one retry. A request
    to the server is represented by how its promise settles. */
module AuthSession {
  import opened Common

  /** How an axios request settles: a 2xx response, an error response with a
      status, or an error without a response (network failure). */
  datatype Outcome = Ok | HttpError(status: int) | NetworkError

  datatype Session = Session(isAuthenticated: bool, isLoading: bool)

  /** `useState(false)` and `useState(true)`. */
  const Initial: Session := Session(false, true)

  /** An async action's settled state, and the error it rethrew, if any. */
  datatype Settled = Settled(session: Session, thrown: Option<Outcome>)

  /** `refreshAccessToken`: true exactly when the refresh request succeeded;
      every failure is caught. */
  function RefreshAccessToken(refresh: Outcome): (refreshed: bool)
    ensures refreshed <==> refresh == Ok
  {
    match refresh
    case Ok => true
    case _ => false
  }

  /** The mount effect `initializeAuth`: whatever the check request does,
      loading ends, and the session is authenticated exactly when the check
      succeeded. */
  function InitializeAuth(s: Session, check: Outcome): (s': Session)
    ensures !s'.isLoading
    ensures s'.isAuthenticated <==> check.Ok?
  {
    Session(check.Ok?, false)
  }

  /** `login` and `googleLogin`: authenticate on success; on failure rethrow
      the error and leave the flags alone. */
  function Login(s: Session, response: Outcome): (r: Settled)
    ensures r.thrown.None? <==> response.Ok?
    ensures r.thrown.Some? ==> r.thrown.value == response && r.session == s
    ensures r.thrown.None? ==> r.session.isAuthenticated && r.session.isLoading == s.isLoading
  {
    if response.Ok? then Settled(s.(isAuthenticated := true), None)
    else Settled(s, Some(response))
  }

  function GoogleLogin(s: Session, response: Outcome): (r: Settled)
    ensures r == Login(s, response)
    ensures r.thrown.None? ==> r.session.isAuthenticated
  {
    if response.Ok? then Settled(s.(isAuthenticated := true), None)
    else Settled(s, Some(response))
  }

  /** `logout`: the failure is only logged, and the `finally` clears the
      authentication flag either way. */
  function Logout(s: Session, response: Outcome): (r: Settled)
    ensures !r.session.isAuthenticated && r.session.isLoading == s.isLoading
    ensures r.thrown.None?
  {
    Settled(s.(isAuthenticated := false), None)
  }

  /** One request through `authAxios`: what the caller finally sees, the
      session afterwards, and how many requests and refreshes were made. */
  datatype Exchange = Exchange(result: Outcome, session: Session, sends: nat, refreshes: nat)

  /** `authAxios(config)`: `response` is the server's answer to this send,
      `refresh` the answer to a refresh call, and `resend` the answer to the
      re-sent request. A 401 on a request not yet marked `_retry` marks it,
      refreshes once and, on success, re-sends it through the same
      interceptor; every other error is rejected unchanged. */
  function Send(s: Session, retried: bool, response: Outcome, refresh: Outcome, resend: Outcome): (x: Exchange)
    ensures 1 <= x.sends <= 2 && x.refreshes <= 1
    ensures x.sends == 2 ==> x.refreshes == 1
    ensures x.refreshes == 1 <==> response == HttpError(401) && !retried
    ensures x.refreshes == 0 ==> x == Exchange(response, s, 1, 0)
    ensures x.refreshes == 1 && refresh.Ok? ==> x.sends == 2 && x.result == resend && x.session == s
    ensures x.refreshes == 1 && !refresh.Ok? ==>
      x.sends == 1 && x.result == response && x.session == s.(isAuthenticated := false)
    decreases if retried then 0 else 1
  {
    if response == HttpError(401) && !retried then
      if RefreshAccessToken(refresh) then
        var again := Send(s, true, resend, refresh, resend);
        Exchange(again.result, again.session, again.sends + 1, again.refreshes + 1)
      else
        Exchange(response, s.(isAuthenticated := false), 1, 1)
    else
      Exchange(response, s, 1, 0)
  }

  /** A fresh request whose retry is rejected with 401 again: the caller sees
      that second 401, and no second refresh is attempted. */
  lemma SecondUnauthorizedIsFinal(s: Session)
    ensures Send(s, false, HttpError(401), Ok, HttpError(401))
            == Exchange(HttpError(401), s, 2, 1)
  {
  }

  /** The session only ever loses authentication through the interceptor, and
      only when a refresh was attempted and failed. */
  lemma InterceptorOnlyDeauthenticates(s: Session, response: Outcome, refresh: Outcome, resend: Outcome)
    ensures
      var x := Send(s, false, response, refresh, resend);
      && x.session.isLoading == s.isLoading
      && (x.session != s ==> !x.session.isAuthenticated && response == HttpError(401) && !refresh.Ok?)
  {
  }
}
