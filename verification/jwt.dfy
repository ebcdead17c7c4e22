/** Signed tokens as the authentication controller uses them: `jwt.sign` with
    one of two secrets and a lifetime, and `jwt.verify` against one secret at
    an integer clock (seconds). Signatures are abstract: a token records which
    secret produced it, and verification with the other secret fails. */
module Jwt {

  /** `JWT_SECRET` signs access tokens, `REFRESH_TOKEN_SECRET` refresh tokens. */
  datatype Secret = AccessSecret | RefreshSecret

  /** A cookie value presented as a token: either something one of the two
      secrets signed (user id claim, issued-at and expiry in seconds), or any
      other string, which no secret verifies. Two tokens are the same string
      exactly when they are equal here. */
  datatype Token =
    | Signed(secret: Secret, uid: nat, iat: int, exp: int)
    | Malformed(raw: string)

  /** `expiresIn: "15m"` and `expiresIn: "7d"`, in seconds. */
  const AccessLifetime: int := 15 * 60
  const RefreshLifetime: int := 7 * 24 * 60 * 60

  /** Outcome of `jwt.verify`: the decoded user id, or the error it throws. */
  datatype Verdict = Valid(uid: nat) | Expired | Invalid

  /** `jwt.sign({ id: uid }, secret, { expiresIn: lifetime })` at clock `now`. */
  function Sign(secret: Secret, uid: nat, now: int, lifetime: int): (t: Token)
    ensures t.Signed? && t.secret == secret && t.uid == uid
    ensures t.exp - t.iat == lifetime && t.iat == now
  {
    Signed(secret, uid, now, now + lifetime)
  }

  /** `jwt.verify(t, secret)` at clock `now`: the signature is checked first,
      so a token signed with the other secret is Invalid even when it has also
      expired; an expiry at or before `now` gives TokenExpiredError. */
  function Verify(t: Token, secret: Secret, now: int): (v: Verdict)
    ensures v.Valid? <==> t.Signed? && t.secret == secret && now < t.exp
    ensures v.Valid? ==> v.uid == t.uid
    ensures v.Invalid? <==> !(t.Signed? && t.secret == secret)
  {
    match t
    case Malformed(_) => Invalid
    case Signed(s, uid, _, exp) =>
      if s != secret then Invalid
      else if now >= exp then Expired
      else Valid(uid)
  }

  /** A freshly signed token verifies under its own secret for exactly
      `lifetime` seconds from issuance: at the issuing instant, and never at
      or after its expiry (no not-before check is made, so an earlier clock
      also accepts it). */
  lemma ValidExactlyWithinLifetime(secret: Secret, uid: nat, now: int, lifetime: int, later: int)
    requires lifetime > 0
    ensures Verify(Sign(secret, uid, now, lifetime), secret, now) == Valid(uid)
    ensures Verify(Sign(secret, uid, now, lifetime), secret, later).Valid?
            <==> later < now + lifetime
    ensures later >= now + lifetime ==> Verify(Sign(secret, uid, now, lifetime), secret, later) == Expired
  {
  }

  /** Splitting the secrets means a token never verifies under the secret
      that did not sign it, whatever the clock says. */
  lemma SecretsDoNotCross(uid: nat, now: int, lifetime: int, at: int)
    ensures Verify(Sign(AccessSecret, uid, now, lifetime), RefreshSecret, at) == Invalid
    ensures Verify(Sign(RefreshSecret, uid, now, lifetime), AccessSecret, at) == Invalid
  {
  }
}
