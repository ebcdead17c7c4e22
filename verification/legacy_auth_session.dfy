/** The older session provider (hooks/AuthContext.jsx), which also keeps the
    bearer token returned by the login endpoints. Its logout clears state
    only when the request succeeds, unlike the newer provider. */
module LegacyAuthSession {
  import opened Common
  import AuthSession

  /** A server reply: success with the body's `token` field (possibly
      missing), or a failure. */
  datatype Reply = Success(token: Option<string>) | Failure(status: int)

  datatype Session = Session(isAuthenticated: bool, bearerToken: Option<string>)

  const Initial: Session := Session(false, None)

  datatype Settled = Settled(session: Session, thrown: Option<Reply>)

  /** `checkAuth`: success authenticates and leaves the bearer token alone;
      failure signs out locally and forgets the bearer token. */
  function CheckAuth(s: Session, check: Reply): (s': Session)
    ensures s'.isAuthenticated <==> check.Success?
    ensures check.Success? ==> s'.bearerToken == s.bearerToken
    ensures check.Failure? ==> s'.bearerToken.None?
  {
    if check.Success? then s.(isAuthenticated := true)
    else Session(false, None)
  }

  /** `login` and `googleLogin`: success stores the returned token (which is
      absent when the body carries none); failure rethrows and changes
      nothing. */
  function Login(s: Session, reply: Reply): (r: Settled)
    ensures r.thrown.None? <==> reply.Success?
    ensures reply.Success? ==> r.session == Session(true, reply.token)
    ensures reply.Failure? ==> r.session == s && r.thrown == Some(reply)
  {
    match reply
    case Success(token) => Settled(Session(true, token), None)
    case Failure(_) => Settled(s, Some(reply))
  }

  function GoogleLogin(s: Session, reply: Reply): (r: Settled)
    ensures r == Login(s, reply)
  {
    match reply
    case Success(token) => Settled(Session(true, token), None)
    case Failure(_) => Settled(s, Some(reply))
  }

  /** `logout`: both fields are cleared only after the request succeeds; a
      failure is logged and not rethrown. */
  function Logout(s: Session, reply: Reply): (r: Settled)
    ensures r.thrown.None?
    ensures reply.Success? ==> r.session == Initial
    ensures reply.Failure? ==> r.session == s
  {
    if reply.Success? then Settled(Initial, None) else Settled(s, None)
  }

  /** On a failed logout request the two providers disagree: the newer one
      reports the user signed out, the older one still signed in. */
  lemma FailedLogoutDiverges(authenticated: Session, loading: bool, status: int)
    requires authenticated.isAuthenticated
    ensures Logout(authenticated, Failure(status)).session.isAuthenticated
    ensures !AuthSession.Logout(AuthSession.Session(true, loading), AuthSession.HttpError(status)).session.isAuthenticated
  {
  }

  /** A failed check returns the provider to its initial state, whatever it
      held; a successful check keeps the bearer token the last login stored. */
  lemma CheckAuthAfterLogin(s: Session, status: int, token: Option<string>, reply: Reply)
    ensures CheckAuth(s, Failure(status)) == Initial
    ensures reply.Success? ==> CheckAuth(Login(s, Success(token)).session, reply) == Session(true, token)
  {
  }
}
