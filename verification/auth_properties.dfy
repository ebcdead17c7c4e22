/** Properties of the authentication controller that relate several handler
    calls: reachable stores, revocation of refresh tokens, single use of
    verification tokens, and the end-to-end signup/verify/login scenario. */
module AuthProperties {
  import opened Common
  import opened Jwt
  import opened Crypto
  import opened AuthController

  /** One HTTP request to one of the controller's handlers, carrying the
      oracle values (salt, random token, clock, mail outcome) it consumes. */
  datatype Request =
    | SignupReq(name: string, email: string, password: string, salt: nat, token: string, delivered: bool)
    | LoginReq(email: string, password: string, now: int, token: string, delivered: bool)
    | RefreshReq(cookie: Option<Token>, now: int)
    | VerifyEmailReq(token: string)
    | CheckVerificationReq(email: string)
    | SignoutReq(uid: nat)
    | CheckAuthReq(cookie: Option<Token>, now: int)

  /** The random-token oracle delivered a fresh value to the request. */
  predicate Admissible(s: Store, q: Request) {
    match q
    case SignupReq(_, _, _, _, token, _) => FreshVerificationToken(s, token)
    case LoginReq(_, _, _, token, _) => FreshVerificationToken(s, token)
    case _ => true
  }

  /** Dispatch a request to its handler; every handler keeps the invariant. */
  function Handle(s: Store, q: Request): (r: Response)
    requires Admissible(s, q)
    ensures Inv(s) ==> Inv(r.store)
  {
    match q
    case SignupReq(name, email, password, salt, token, delivered) =>
      Signup(s, name, email, password, salt, token, delivered)
    case LoginReq(email, password, now, token, delivered) =>
      Login(s, email, password, now, token, delivered)
    case RefreshReq(cookie, now) => Refresh(s, cookie, now)
    case VerifyEmailReq(token) => VerifyEmail(s, token)
    case CheckVerificationReq(email) => CheckVerificationStatus(s, email)
    case SignoutReq(uid) => Signout(s, uid)
    case CheckAuthReq(cookie, now) => CheckAuth(s, cookie, now)
  }

  /** Every request of the sequence is admissible in the store it meets. */
  predicate AdmissibleRun(s: Store, qs: seq<Request>)
    decreases |qs|
  {
    |qs| == 0 || (Admissible(s, qs[0]) && AdmissibleRun(Handle(s, qs[0]).store, qs[1..]))
  }

  /** The store after handling the requests one at a time, each atomically. */
  function Run(s: Store, qs: seq<Request>): (r: Store)
    requires AdmissibleRun(s, qs)
    ensures Inv(s) ==> Inv(r)
    ensures |r| >= |s|
    decreases |qs|
  {
    if |qs| == 0 then s else Run(Handle(s, qs[0]).store, qs[1..])
  }

  /** Every store the handlers can build from an empty collection satisfies
      the invariant; in particular no verified user holds a verification
      token, so the "already verified" branch of verifyEmail is dead. */
  lemma ReachableStoresAreConsistent(qs: seq<Request>, token: string)
    requires AdmissibleRun([], qs)
    ensures Inv(Run([], qs))
    ensures VerifiedHoldNoVerificationToken(Run([], qs))
    ensures VerifyEmail(Run([], qs), token).status != 400
  {
    assert Inv([]);
  }

  /** A verification token is single use: once it has verified its user, the
      same link gives 404. */
  lemma VerificationTokenSingleUse(s: Store, token: string)
    requires Inv(s)
    requires VerifyEmail(s, token).status == 200
    ensures VerifyEmail(VerifyEmail(s, token).store, token).status == 404
  {
    var i := FindByVerificationToken(s, token).value;
    var s' := VerifyEmail(s, token).store;
    forall j | 0 <= j < |s'|
      ensures s'[j].verificationToken != Some(token)
    {
      if j != i {
        assert s'[j] == s[j];
      }
    }
  }

  /** After a successful verification, polling the user's email reports the
      account as verified. */
  lemma VerifiedStatusIsVisible(s: Store, token: string)
    requires Inv(s)
    requires VerifyEmail(s, token).status == 200
    ensures
      var i := FindByVerificationToken(s, token).value;
      var poll := CheckVerificationStatus(VerifyEmail(s, token).store, s[i].email);
      poll.status == 200 && poll.body == VerificationStatus(true, HasVerified)
  {
    var i := FindByVerificationToken(s, token).value;
    var s' := VerifyEmail(s, token).store;
    assert s'[i].email == s[i].email;
  }

  /** A correct-password login of an unverified user replaces the pending
      token: the previously mailed link stops working. */
  lemma UnverifiedLoginInvalidatesMailedLink(s: Store, email: string, password: string,
                                             now: int, token: string, delivered: bool, mailed: string)
    requires Inv(s) && FreshVerificationToken(s, token)
    requires Login(s, email, password, now, token, delivered).status == 403
    requires s[FindByEmail(s, email).value].verificationToken == Some(mailed)
    ensures VerifyEmail(Login(s, email, password, now, token, delivered).store, mailed).status == 404
    ensures Login(s, email, password, now, token, delivered).cookies == []
  {
    var i := FindByEmail(s, email).value;
    var s' := Login(s, email, password, now, token, delivered).store;
    forall j | 0 <= j < |s'|
      ensures s'[j].verificationToken != Some(mailed)
    {
      if j != i {
        assert s'[j] == s[j];
      }
    }
  }

  /** Signout revokes: afterwards no refresh token of that user is honoured,
      even one whose signature and expiry are still good. */
  lemma SignoutRevokesRefresh(s: Store, uid: nat, t: Token, now: int)
    requires t.Signed? && t.uid == uid
    ensures Refresh(Signout(s, uid).store, Some(t), now).status == 403
  {
  }

  /** After a successful login exactly one refresh token of that user is
      honoured: the one just issued, until it expires. Any earlier one is
      revoked by the overwrite. */
  lemma LoginLeavesOneLiveRefreshToken(s: Store, email: string, password: string, now: int,
                                       token: string, delivered: bool, t: Token, later: int)
    requires FreshVerificationToken(s, token)
    requires Login(s, email, password, now, token, delivered).status == 200
    requires t.Signed? && t.uid == FindByEmail(s, email).value
    ensures Refresh(Login(s, email, password, now, token, delivered).store, Some(t), later).status == 200
            <==> t == Sign(RefreshSecret, t.uid, now, RefreshLifetime) && later < now + RefreshLifetime
  {
  }

  /** Two successive logins of the same verified user: the first refresh
      token survives the second login only when both were signed in the same
      clock second, because the two tokens are then the same string. */
  lemma SecondLoginRevokesFirst(s: Store, email: string, password: string,
                                now1: int, now2: int, token1: string, token2: string, later: int)
    requires FreshVerificationToken(s, token1)
    requires Login(s, email, password, now1, token1, true).status == 200
    requires FreshVerificationToken(Login(s, email, password, now1, token1, true).store, token2)
    requires later < now1 + RefreshLifetime
    ensures
      var s1 := Login(s, email, password, now1, token1, true).store;
      var s2 := Login(s1, email, password, now2, token2, true);
      var first := Sign(RefreshSecret, FindByEmail(s, email).value, now1, RefreshLifetime);
      && s2.status == 200
      && (Refresh(s2.store, Some(first), later).status == 200 <==> now1 == now2)
  {
    var i := FindByEmail(s, email).value;
    var s1 := Login(s, email, password, now1, token1, true).store;
    assert s1[i].email == s[i].email && s1[i].password == s[i].password;
    var s2 := Login(s1, email, password, now2, token2, true);
    LoginLeavesOneLiveRefreshToken(s1, email, password, now2, token2, true,
                                   Sign(RefreshSecret, i, now1, RefreshLifetime), later);
  }

  /** The mail provider's answer never changes what signup or login return
      or store. */
  lemma MailFailureIsInvisible(s: Store, name: string, email: string, password: string,
                               salt: nat, now: int, token: string)
    requires FreshVerificationToken(s, token)
    ensures Signup(s, name, email, password, salt, token, false).status
            == Signup(s, name, email, password, salt, token, true).status
    ensures Signup(s, name, email, password, salt, token, false).store
            == Signup(s, name, email, password, salt, token, true).store
    ensures Login(s, email, password, now, token, false).status
            == Login(s, email, password, now, token, true).status
    ensures Login(s, email, password, now, token, false).store
            == Login(s, email, password, now, token, true).store
  {
  }

  /** The end-to-end path of one account: signup, a premature login, email
      verification and a real login. The premature login re-issues the
      verification token, so the link from the signup mail no longer works
      and only the second mail's link verifies the account. */
  lemma SignupVerifyLoginScenario(t1: string, t2: string, salt: nat, now: int)
    requires IsRandomHexToken(t1) && IsRandomHexToken(t2) && t1 != t2
    ensures
      var r1 := Signup([], "Ann", "ann@x.com", "Secret123", salt, t1, true);
      var r2 := Login(r1.store, "ann@x.com", "Secret123", now, t2, true);
      var r3 := VerifyEmail(r2.store, t1);
      var r4 := VerifyEmail(r2.store, t2);
      var r5 := Login(r4.store, "ann@x.com", "Secret123", now, t1, true);
      var r6 := CheckAuth(r5.store, Some(r5.cookies[0].value), now);
      && r1.status == 201 && r2.status == 403 && r2.cookies == []
      && r3.status == 404 && r4.status == 200
      && r5.status == 200 && |r5.cookies| == 2
      && r6.status == 200 && r6.body == Authenticated(0, "Ann", "ann@x.com")
  {
    var r1 := Signup([], "Ann", "ann@x.com", "Secret123", salt, t1, true);
    assert r1.store == [User("Ann", "ann@x.com", Hash("Secret123", salt), false, Some(t1), None)];
    var r2 := Login(r1.store, "ann@x.com", "Secret123", now, t2, true);
    assert r2.store == [User("Ann", "ann@x.com", Hash("Secret123", salt), false, Some(t2), None)];
    var r4 := VerifyEmail(r2.store, t2);
    assert r4.store == [User("Ann", "ann@x.com", Hash("Secret123", salt), true, None, None)];
  }
}
