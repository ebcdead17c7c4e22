/** The server-side authentication controller as a pure transition system:
    each HTTP handler is a function from the user store and the request to a
    response carrying the status code, the body, the new store, the cookies
    set or cleared, and the verification email handed to the mailer. */
module AuthController {
  import opened Common
  import opened Jwt
  import opened Crypto

  /** A document of the users collection. */
  datatype User = User(
    name: string,
    email: string,
    password: Digest,
    isVerified: bool,
    verificationToken: Option<string>,
    refreshToken: Option<Token>)

  /** The users collection in natural order; a user's id (`_id`) is its
      position. Users are never removed by this controller. */
  type Store = seq<User>

  /** `res.cookie(name, value, { maxAge })` and `res.clearCookie(name)`. */
  datatype CookieOp =
    | SetCookie(name: string, value: Token, maxAgeMs: int)
    | ClearCookie(name: string)

  const AccessCookie: string := "accessToken"
  const RefreshCookie: string := "refreshToken"
  const AccessMaxAgeMs: int := 15 * 60 * 1000
  const RefreshMaxAgeMs: int := 7 * 24 * 60 * 60 * 1000

  /** A verification email handed to the mail provider: recipient and the
      token embedded in the link. `delivered` is the provider's answer, which
      `sendVerificationEmail` only logs. */
  datatype Mail = VerificationMail(to: string, token: string, delivered: bool)

  /** Response bodies. */
  datatype Body =
    | Message(text: string)
    | VerificationStatus(isVerified: bool, text: string)
    | Authenticated(id: nat, name: string, email: string)
    | VerifiedPage

  datatype Response = Response(
    status: int,
    body: Body,
    store: Store,
    cookies: seq<CookieOp>,
    mail: Option<Mail>)

  const UserExists: string := "User already exists"
  const SignupOk: string := "Signup successful. Please check your email for verification."
  const InvalidCredentials: string := "Invalid email or password"
  const NotVerified: string := "Email not verified. A verification email has been sent to you."
  const LoginOk: string := "Login successful"
  const RefreshNotFound: string := "Refresh token not found"
  const UserNotFound: string := "User not found"
  const InvalidRefresh: string := "Invalid refresh token"
  const Refreshed: string := "Access token refreshed"
  const BadVerificationToken: string := "Invalid or expired verification token"
  const AlreadyVerified: string := "Email is already verified"
  const HasVerified: string := "User has verified their account"
  const HasNotVerified: string := "User has not verified their account"
  const LoggedOut: string := "Logged out successfully"
  const AccessNotFound: string := "Access token not found"
  const AccessExpired: string := "Access token expired"
  const InvalidAccess: string := "Invalid access token"
  const AuthenticatedText: string := "Authenticated"

  // ---------------------------------------------------------------------------
  // Store invariants

  predicate UniqueEmails(s: Store) {
    forall i, j :: 0 <= i < j < |s| ==> s[i].email != s[j].email
  }

  /** A verified user never holds a pending verification token. */
  predicate VerifiedHoldNoVerificationToken(s: Store) {
    forall i :: 0 <= i < |s| && s[i].isVerified ==> s[i].verificationToken.None?
  }

  /** Only verified users ever hold a refresh token. */
  predicate OnlyVerifiedHoldRefreshTokens(s: Store) {
    forall i :: 0 <= i < |s| && s[i].refreshToken.Some? ==> s[i].isVerified
  }

  /** A stored refresh token was signed with the refresh secret for its owner. */
  predicate RefreshTokensBoundToOwner(s: Store) {
    forall i :: 0 <= i < |s| && s[i].refreshToken.Some? ==>
      var t := s[i].refreshToken.value;
      t.Signed? && t.secret == RefreshSecret && t.uid == i
  }

  /** No two users hold the same pending verification token. */
  predicate UniqueVerificationTokens(s: Store) {
    forall i, j :: 0 <= i < |s| && 0 <= j < |s| && i != j && s[i].verificationToken.Some? ==>
      s[i].verificationToken != s[j].verificationToken
  }

  predicate Inv(s: Store) {
    && UniqueEmails(s)
    && VerifiedHoldNoVerificationToken(s)
    && OnlyVerifiedHoldRefreshTokens(s)
    && RefreshTokensBoundToOwner(s)
    && UniqueVerificationTokens(s)
  }

  /** What the random-token oracle guarantees: the right shape, and a value no
      user currently holds as a verification token. */
  predicate FreshVerificationToken(s: Store, t: string) {
    IsRandomHexToken(t) && forall i :: 0 <= i < |s| ==> s[i].verificationToken != Some(t)
  }

  // ---------------------------------------------------------------------------
  // Lookups

  predicate EmailTaken(s: Store, email: string) {
    exists i :: 0 <= i < |s| && s[i].email == email
  }

  /** `User.findOne({ email })`: exact, case-sensitive match. */
  function FindByEmail(s: Store, email: string): (r: Option<nat>)
    ensures r.Some? ==> r.value < |s| && s[r.value].email == email
    ensures r.None? <==> !EmailTaken(s, email)
  {
    FindFirst(s, (u: User) => u.email == email)
  }

  predicate HoldsVerificationToken(s: Store, token: string) {
    exists i :: 0 <= i < |s| && s[i].verificationToken == Some(token)
  }

  /** `User.findOne({ verificationToken: token })`. */
  function FindByVerificationToken(s: Store, token: string): (r: Option<nat>)
    ensures r.Some? ==> r.value < |s| && s[r.value].verificationToken == Some(token)
    ensures r.None? <==> !HoldsVerificationToken(s, token)
  {
    FindFirst(s, (u: User) => u.verificationToken == Some(token))
  }

  /** `!cookie` in JavaScript: no cookie, or an empty one. */
  predicate CookieAbsent(cookie: Option<Token>) {
    cookie.None? || cookie.value == Malformed("")
  }

  // ---------------------------------------------------------------------------
  // Handlers

  /** `sendVerificationEmail`: the message always goes to the user's address
      with the user's current token; a provider failure is caught and logged. */
  function SendVerificationEmail(u: User, delivered: bool): (m: Mail)
    requires u.verificationToken.Some?
    ensures m.to == u.email && Some(m.token) == u.verificationToken
  {
    VerificationMail(u.email, u.verificationToken.value, delivered)
  }

  /** `signup`: reject a taken email, otherwise add an unverified user with a
      hashed password and a fresh verification token, then mail the token. */
  function Signup(s: Store, name: string, email: string, password: string,
                  salt: nat, token: string, delivered: bool): (r: Response)
    requires FreshVerificationToken(s, token)
    ensures r.status == 400 <==> EmailTaken(s, email)
    ensures r.status == 400 ==> r.body == Message(UserExists) && r.store == s && r.mail.None?
    ensures r.status != 400 ==> r.status == 201 && |r.store| == |s| + 1 && r.store[..|s|] == s
    ensures r.status == 201 ==>
      var u := r.store[|s|];
      && u.name == name && u.email == email
      && !u.isVerified && u.verificationToken == Some(token) && u.refreshToken.None?
      && Compare(password, u.password) && u.password.salt == salt
      && r.mail == Some(VerificationMail(email, token, delivered))
    ensures r.cookies == []
    ensures Inv(s) ==> Inv(r.store)
  {
    if FindByEmail(s, email).Some? then
      Response(400, Message(UserExists), s, [], None)
    else
      var u := User(name, email, Hash(password, salt), false, Some(token), None);
      Response(201, Message(SignupOk), s + [u], [], Some(SendVerificationEmail(u, delivered)))
  }

  /** The user a login attempt names, when the password matches. */
  predicate Authenticates(s: Store, email: string, password: string) {
    var i := FindByEmail(s, email);
    i.Some? && Compare(password, s[i.value].password)
  }

  /** `login`: the password is checked before the verification status; an
      unverified user gets a new verification token and a 403, a verified one
      a fresh token pair whose refresh half replaces the stored one. */
  function Login(s: Store, email: string, password: string, now: int,
                 token: string, delivered: bool): (r: Response)
    requires FreshVerificationToken(s, token)
    ensures r.status in {200, 400, 403}
    ensures r.status == 400 <==> !Authenticates(s, email, password)
    ensures r.status == 400 ==> r == Response(400, Message(InvalidCredentials), s, [], None)
    ensures r.status == 403 ==>
      var i := FindByEmail(s, email).value;
      && !s[i].isVerified
      && r.store == s[i := s[i].(verificationToken := Some(token))]
      && r.cookies == [] && r.mail == Some(VerificationMail(email, token, delivered))
    ensures r.status == 200 ==>
      var i := FindByEmail(s, email).value;
      var access := Sign(AccessSecret, i, now, AccessLifetime);
      var refresh := Sign(RefreshSecret, i, now, RefreshLifetime);
      && s[i].isVerified
      && r.store == s[i := s[i].(refreshToken := Some(refresh))]
      && r.cookies == [SetCookie(AccessCookie, access, AccessMaxAgeMs),
                       SetCookie(RefreshCookie, refresh, RefreshMaxAgeMs)]
      && r.mail.None?
    ensures Inv(s) ==> Inv(r.store)
  {
    match FindByEmail(s, email)
    case None => Response(400, Message(InvalidCredentials), s, [], None)
    case Some(i) =>
      if !Compare(password, s[i].password) then
        Response(400, Message(InvalidCredentials), s, [], None)
      else if !s[i].isVerified then
        var u := s[i].(verificationToken := Some(token));
        Response(403, Message(NotVerified), s[i := u], [], Some(SendVerificationEmail(u, delivered)))
      else
        var access := Sign(AccessSecret, i, now, AccessLifetime);
        var refresh := Sign(RefreshSecret, i, now, RefreshLifetime);
        Response(200, Message(LoginOk), s[i := s[i].(refreshToken := Some(refresh))],
                 [SetCookie(AccessCookie, access, AccessMaxAgeMs),
                  SetCookie(RefreshCookie, refresh, RefreshMaxAgeMs)], None)
  }

  /** A presented refresh token is honoured: it verifies under the refresh
      secret, names an existing user, and equals that user's stored token. */
  predicate RefreshAccepted(s: Store, t: Token, now: int) {
    && t.Signed? && t.secret == RefreshSecret && now < t.exp
    && t.uid < |s| && s[t.uid].refreshToken == Some(t)
  }

  /** `refreshToken`: mint a new access token from a live, unrevoked refresh
      token. The store is never changed, so the refresh token itself is not
      rotated. */
  function Refresh(s: Store, cookie: Option<Token>, now: int): (r: Response)
    ensures r.store == s && r.mail.None?
    ensures r.status in {200, 401, 403}
    ensures r.status == 401 <==> CookieAbsent(cookie)
    ensures r.status == 200 <==> !CookieAbsent(cookie) && RefreshAccepted(s, cookie.value, now)
    ensures r.status == 200 ==>
      r.cookies == [SetCookie(AccessCookie, Sign(AccessSecret, cookie.value.uid, now, AccessLifetime), AccessMaxAgeMs)]
    ensures r.status != 200 ==> r.cookies == []
  {
    if CookieAbsent(cookie) then
      Response(401, Message(RefreshNotFound), s, [], None)
    else
      match Verify(cookie.value, RefreshSecret, now)
      case Valid(uid) =>
        if uid >= |s| then
          Response(403, Message(UserNotFound), s, [], None)
        else if s[uid].refreshToken != Some(cookie.value) then
          Response(403, Message(InvalidRefresh), s, [], None)
        else
          var access := Sign(AccessSecret, uid, now, AccessLifetime);
          Response(200, Message(Refreshed), s, [SetCookie(AccessCookie, access, AccessMaxAgeMs)], None)
      case _ =>
        Response(403, Message(InvalidRefresh), s, [], None)
  }

  /** `verifyEmail`: the first user holding the token becomes verified and
      loses the token. */
  function VerifyEmail(s: Store, token: string): (r: Response)
    ensures r.status in {200, 400, 404}
    ensures r.status == 404 <==> !HoldsVerificationToken(s, token)
    ensures r.status != 200 ==> r.store == s
    ensures r.status == 200 ==>
      var i := FindByVerificationToken(s, token).value;
      && |r.store| == |s|
      && r.store[i].isVerified && r.store[i].verificationToken.None?
      && r.store[i] == s[i].(isVerified := true, verificationToken := None)
      && (forall j :: 0 <= j < |s| && j != i ==> r.store[j] == s[j])
    ensures Inv(s) ==> r.status != 400
    ensures Inv(s) ==> Inv(r.store)
    ensures r.cookies == [] && r.mail.None?
  {
    match FindByVerificationToken(s, token)
    case None => Response(404, Message(BadVerificationToken), s, [], None)
    case Some(i) =>
      if s[i].isVerified then
        Response(400, Message(AlreadyVerified), s, [], None)
      else
        var u := s[i].(isVerified := true, verificationToken := None);
        Response(200, VerifiedPage, s[i := u], [], None)
  }

  /** `checkVerificationStatus`: a read-only poll by email. */
  function CheckVerificationStatus(s: Store, email: string): (r: Response)
    ensures r.store == s && r.cookies == [] && r.mail.None?
    ensures r.status == 404 <==> !EmailTaken(s, email)
    ensures r.status != 404 ==>
      r.status == 200 && r.body.VerificationStatus?
      && r.body.isVerified == s[FindByEmail(s, email).value].isVerified
      && r.body.text == (if r.body.isVerified then HasVerified else HasNotVerified)
  {
    match FindByEmail(s, email)
    case None => Response(404, Message(UserNotFound), s, [], None)
    case Some(i) =>
      var v := s[i].isVerified;
      Response(200, VerificationStatus(v, if v then HasVerified else HasNotVerified), s, [], None)
  }

  /** `signout` for the user the authentication middleware identified: clear
      both cookies and null the stored refresh token. An unknown id updates
      nothing. */
  function Signout(s: Store, uid: nat): (r: Response)
    ensures r.status == 200
    ensures r.cookies == [ClearCookie(AccessCookie), ClearCookie(RefreshCookie)]
    ensures |r.store| == |s|
    ensures uid < |s| ==> r.store[uid].refreshToken.None?
    ensures forall j :: 0 <= j < |s| ==>
      r.store[j] == (if j == uid then s[j].(refreshToken := None) else s[j])
    ensures Inv(s) ==> Inv(r.store)
  {
    var s' := if uid < |s| then s[uid := s[uid].(refreshToken := None)] else s;
    Response(200, Message(LoggedOut), s', [ClearCookie(AccessCookie), ClearCookie(RefreshCookie)], None)
  }

  /** `checkAuth`: a missing or expired access token gives 401, any other
      failure 403, and only a live access token of an existing user succeeds. */
  function CheckAuth(s: Store, cookie: Option<Token>, now: int): (r: Response)
    ensures r.store == s && r.cookies == [] && r.mail.None?
    ensures r.status in {200, 401, 403}
    ensures r.status == 401 <==>
      CookieAbsent(cookie) || (cookie.value.Signed? && cookie.value.secret == AccessSecret && cookie.value.exp <= now)
    ensures r.status == 200 <==>
      !CookieAbsent(cookie) && cookie.value.Signed? && cookie.value.secret == AccessSecret
      && now < cookie.value.exp && cookie.value.uid < |s|
    ensures r.status == 200 ==>
      var u := s[cookie.value.uid];
      r.body == Authenticated(cookie.value.uid, u.name, u.email)
  {
    if CookieAbsent(cookie) then
      Response(401, Message(AccessNotFound), s, [], None)
    else
      match Verify(cookie.value, AccessSecret, now)
      case Valid(uid) =>
        if uid >= |s| then
          Response(403, Message(UserNotFound), s, [], None)
        else
          Response(200, Authenticated(uid, s[uid].name, s[uid].email), s, [], None)
      case Expired => Response(401, Message(AccessExpired), s, [], None)
      case Invalid => Response(403, Message(InvalidAccess), s, [], None)
  }
}
