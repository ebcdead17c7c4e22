/** The two cryptographic helpers the authentication controller calls, as
    idealised oracles: bcrypt's salted hash/compare pair, and
    `crypto.randomBytes(32).toString("hex")`. */
module Crypto {

  /** A bcrypt digest. It is a different type from a password, so a stored
      digest can never be compared as if it were the plaintext; `Compare` is
      the only way to test a candidate against it. Collisions are idealised
      away: a digest accepts exactly the password it was made from. */
  datatype Digest = Bcrypt(salt: nat, source: string)

  /** `bcrypt.genSalt(10)` uses cost factor 10. */
  const SaltRounds: nat := 10

  /** `bcrypt.hash(password, salt)`. */
  function Hash(password: string, salt: nat): (d: Digest)
    ensures d.salt == salt
  {
    Bcrypt(salt, password)
  }

  /** `bcrypt.compare(candidate, digest)`. */
  function Compare(candidate: string, d: Digest): bool {
    d.source == candidate
  }

  /** A digest accepts the password it was made from and nothing else, for
      every salt. */
  lemma CompareAcceptsExactlyTheHashedPassword(password: string, candidate: string, salt: nat)
    ensures Compare(candidate, Hash(password, salt)) <==> candidate == password
  {
  }

  predicate IsLowerHexDigit(c: char) {
    ('0' <= c <= '9') || ('a' <= c <= 'f')
  }

  /** The shape of `crypto.randomBytes(32).toString("hex")`: 32 bytes, two
      lower-case hex digits each. */
  predicate IsRandomHexToken(t: string) {
    |t| == 64 && forall i :: 0 <= i < |t| ==> IsLowerHexDigit(t[i])
  }
}
