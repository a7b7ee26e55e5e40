/** Token issue and validation (backend/pkg/utils/jwt.go). HS256 signing
    and parsing are library calls, so they enter as an opaque signer and
    an opaque parser; what is modelled is the claim set `GenerateJWT`
    builds and the accept/reject shape of `ValidateJWT`. One clock reading
    stands for both calls to the current time. */
module Jwt {
  import opened Outcomes
  import opened Models

  /** `TOKEN_DURATION`: 24 hours, in seconds. */
  const TokenDuration := 24 * 60 * 60

  /** What the token library can report. `InvalidKey` is the error
      `ValidateJWT` itself returns when a parsed token is not acceptable. */
  datatype JwtError =
    | Malformed
    | SignatureInvalid
    | Expired
    | OtherParseError(detail: string)
    | InvalidKey

  /** What parsing a token string yields: an error, or a token whose claims
      may or may not have the expected type and which may or may not be
      valid. */
  datatype ParsedToken =
    | ParseFailed(err: JwtError)
    | Parsed(claimsMatch: bool, claims: JwtClaims, valid: bool)

  /** HS256 signing with the process secret; `None` is a signing error. */
  type Signer = JwtClaims -> Option<string>

  /** HS256 parsing and verification with the process secret at the
      current time. */
  type Verifier = string -> ParsedToken

  /** The claim set `GenerateJWT` signs for `u` at time `now`: the user's
      id twice (as the custom claim and as the subject), the email and the
      role, issued now and expiring 24 hours later. */
  function IssueClaims(u: User, now: int): (c: JwtClaims)
    ensures c.userId == u.id && c.subject == u.id
    ensures c.email == u.email && c.role == u.role
    ensures c.issuedAt == now && c.expiresAt == c.issuedAt + TokenDuration
  {
    JwtClaims(u.id, u.email, u.role, u.id, now, now + TokenDuration)
  }

  /** `GenerateJWT`: the signer applied to that claim set; a signing error
      is `None`. */
  function GenerateJWT(u: User, now: int, sign: Signer): (token: Option<string>)
    ensures token == sign(IssueClaims(u, now))
  {
    sign(IssueClaims(u, now))
  }

  /** Only the id, email and role of the account enter the token: the
      password hash and the creation time never do. */
  lemma TokenIgnoresSecrets(u: User, v: User, now: int, sign: Signer)
    requires u.id == v.id && u.email == v.email && u.role == v.role
    ensures GenerateJWT(u, now, sign) == GenerateJWT(v, now, sign)
  {
    assert IssueClaims(u, now) == IssueClaims(v, now);
  }

  /** Claims come back only from a token that parsed, whose claims have the
      expected type and which is valid; a parse error is passed through
      unchanged; anything else is `InvalidKey`. */
  function ValidateJWT(token: string, verify: Verifier): (r: Result<JwtClaims, JwtError>)
    ensures r.Success? <==> verify(token).Parsed? && verify(token).claimsMatch && verify(token).valid
    ensures r.Success? ==> r.value == verify(token).claims
    ensures verify(token).ParseFailed? ==> r == Failure(verify(token).err)
    ensures verify(token).Parsed? && !r.Success? ==> r == Failure(InvalidKey)
  {
    match verify(token)
    case ParseFailed(err) => Failure(err)
    case Parsed(claimsMatch, claims, valid) =>
      if claimsMatch && valid then Success(claims) else Failure(InvalidKey)
  }

  /** The library contract the model relies on, at clock reading `at`: a
      signed token has no space in it (the compact serialisation is
      base64url and dots), and parsing it gives back exactly the signed
      claims, valid while `at` is before the expiry and reported as expired
      from then on. */
  ghost predicate SignerMatchesVerifier(sign: Signer, verify: Verifier, at: int) {
    forall c :: sign(c).Some? ==>
      && ' ' !in sign(c).value
      && verify(sign(c).value) == (if at < c.expiresAt then Parsed(true, c, true) else ParseFailed(Expired))
  }

  /** Round trip: a token issued for `u` at `now` validates at `at` exactly
      while `at < now + 24h`, and then yields `u`'s id (as both the user id
      and the subject), email and role, with the issue and expiry times. */
  lemma IssuedTokenRoundTrip(u: User, now: int, at: int, sign: Signer, verify: Verifier)
    requires SignerMatchesVerifier(sign, verify, at)
    requires GenerateJWT(u, now, sign).Some?
    ensures var r := ValidateJWT(GenerateJWT(u, now, sign).value, verify);
      && (r.Success? <==> at < now + TokenDuration)
      && (r.Success? ==>
            && r.value.userId == u.id && r.value.subject == u.id
            && r.value.email == u.email && r.value.role == u.role
            && r.value.issuedAt == now && r.value.expiresAt == now + TokenDuration)
      && (!r.Success? ==> r == Failure(Expired))
  {
    var c := IssueClaims(u, now);
    assert sign(c).Some?;
  }
}
