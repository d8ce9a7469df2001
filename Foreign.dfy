/** The calls into code this model does not contain, passed to the
    operations as values: bcrypt hashing and comparison, SHA-256, JWT signing
    and verification, and the user schema's `passwordChangedAfter` method. */
module Foreign {
  import Store

  /** What `jwt.verify` yields: the claims `id` and `iat` (RFC 7519, section
      4.1.6), or one of its two errors. */
  datatype Verification = Decoded(id: nat, iat: int) | Malformed | Expired

  datatype Services = Services(
    /** `bcrypt.hash(password, 10)`. */
    hash: string -> string,
    /** `user.comparePassword(candidate)`: the candidate against the stored value. */
    matches: (string, string) -> bool,
    /** `createHash('sha256').update(s).digest('hex')`. */
    sha256: string -> string,
    /** `generateToken(id)`: a signed token carrying the id. */
    sign: nat -> string,
    /** `jwt.verify(token, secret)`, expiry already judged against the clock. */
    verify: string -> Verification,
    /** `user.passwordChangedAfter(iat)`. */
    changedAfter: (Store.User, int) -> bool)
}
