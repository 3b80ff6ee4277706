/**
 * The signed-token codec (JWT compact form, HS512) seen from outside: a token
 * is an opaque string; `issue` signs a set of claims and `verify` parses a
 * token at a given instant. Signing and parsing themselves are not modelled;
 * `Sound` states what the core relies on them for.
 */
module JwtCodec {
  import opened Wrappers

  /**
   * The claims the core writes and reads: `sub`, the `auth` claim (null when
   * the authentication had no granted authority) and the expiry instant in
   * milliseconds.
   */
  datatype Claims = Claims(subject: string, authority: Option<string>, expiresAt: int)

  /**
   * Outcome of parsing a token: well-formed and live, well-formed but
   * expired, well-formed but signed with another key, or not a well-formed
   * token at all.
   */
  datatype Verdict = Valid(claims: Claims) | Expired(claims: Claims) | BadSignature | Malformed

  datatype Codec = Codec(issue: Claims -> string, verify: (string, int) -> Verdict)

  /** A token whose expiry instant lies strictly before `now` is expired (the parser's `after` test). */
  predicate IsExpiredAt(c: Claims, now: int)
  {
    now > c.expiresAt
  }

  /**
   * A sound codec gives back, for a token it issued, exactly the claims it
   * signed, classified as expired or live by the expiry instant.
   */
  ghost predicate Sound(codec: Codec)
  {
    forall c: Claims, now: int {:trigger codec.verify(codec.issue(c), now)} ::
      codec.verify(codec.issue(c), now) == (if IsExpiredAt(c, now) then Expired(c) else Valid(c))
  }
}
