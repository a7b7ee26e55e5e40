/** The bearer-header gate in front of every /api route
    (backend/internal/middleware/auth.go). */
module AuthMiddleware {
  import opened Outcomes
  import opened Text
  import opened Models
  import opened Jwt

  /** The request locals a successful check sets: `user_id`, `user_email`,
      `user_role`. */
  datatype Locals = Locals(userId: string, userEmail: string, userRole: string)

  datatype AuthGate = Authorized(locals: Locals) | Denied(response: Response)

  /** The format check: splitting the header on single spaces must give two
      parts, the first exactly "Bearer"; the token is the second part. */
  function BearerToken(header: string): (t: Option<string>)
    ensures t.Some? ==> header == "Bearer " + t.value && ' ' !in t.value
  {
    var parts := Split(header, ' ');
    assert |parts| == 2 ==> Join(parts, ' ') == parts[0] + [' '] + parts[1];
    if |parts| == 2 && parts[0] == "Bearer" then Some(parts[1]) else None
  }

  /** The format check in closed form: the header is "Bearer", one space,
      and a token with no space in it (possibly empty). So "bearer t",
      "Bearer  t" and "Bearer t u" all fail it. */
  lemma BearerTokenIff(header: string, token: string)
    ensures BearerToken(header) == Some(token) <==> header == "Bearer " + token && ' ' !in token
  {
    var parts := Split(header, ' ');
    if BearerToken(header) == Some(token) {
      assert Join(parts, ' ') == "Bearer" + [' '] + token;
    }
    if header == "Bearer " + token && ' ' !in token {
      assert header == "Bearer" + [' '] + token;
      SplitAtFirst("Bearer", token, ' ');
      SplitNoSeparator(token, ' ');
    }
  }

  function RequireAuth(header: string, verify: Verifier): (g: AuthGate)
    ensures header == "" ==> g == Denied(Error(StatusUnauthorized, "Authorization header required"))
    ensures header != "" && BearerToken(header).None? ==>
      g == Denied(Error(StatusUnauthorized, "Invalid authorization format. Use: Bearer <token>"))
    ensures g.Authorized? <==>
      header != "" && BearerToken(header).Some? && ValidateJWT(BearerToken(header).value, verify).Success?
    ensures header != "" && BearerToken(header).Some? && !g.Authorized? ==>
      g == Denied(Error(StatusUnauthorized, "Invalid or expired token"))
    ensures g.Authorized? ==> var c := ValidateJWT(BearerToken(header).value, verify).value;
      g.locals == Locals(c.userId, c.email, c.role)
  {
    if header == "" then Denied(Error(StatusUnauthorized, "Authorization header required"))
    else match BearerToken(header)
      case None => Denied(Error(StatusUnauthorized, "Invalid authorization format. Use: Bearer <token>"))
      case Some(token) =>
        match ValidateJWT(token, verify)
        case Failure(_) => Denied(Error(StatusUnauthorized, "Invalid or expired token"))
        case Success(c) => Authorized(Locals(c.userId, c.email, c.role))
  }

  /** An empty or malformed header is answered without consulting the token
      parser at all: any two parsers give the same answer. */
  lemma MalformedHeaderNeverValidated(header: string, v1: Verifier, v2: Verifier)
    requires header == "" || BearerToken(header).None?
    ensures RequireAuth(header, v1) == RequireAuth(header, v2)
    ensures RequireAuth(header, v1).Denied?
  {
  }

  /** The parser is asked about the second part of the header only: two
      parsers that agree on it give the same answer. */
  lemma OnlyTheTokenIsValidated(token: string, v1: Verifier, v2: Verifier)
    requires ' ' !in token
    requires v1(token) == v2(token)
    ensures RequireAuth("Bearer " + token, v1) == RequireAuth("Bearer " + token, v2)
  {
    BearerTokenIff("Bearer " + token, token);
  }

  /** A token issued for `u` at `now`, presented as "Bearer <token>" at
      clock reading `at`, is let through with `u`'s id, email and role as
      the locals exactly while it has not expired. */
  lemma IssuedTokenAuthorizes(u: User, now: int, at: int, sign: Signer, verify: Verifier)
    requires SignerMatchesVerifier(sign, verify, at)
    requires GenerateJWT(u, now, sign).Some?
    ensures var g := RequireAuth("Bearer " + GenerateJWT(u, now, sign).value, verify);
      && (g.Authorized? <==> at < now + TokenDuration)
      && (g.Authorized? ==> g.locals == Locals(u.id, u.email, u.role))
      && (!g.Authorized? ==> g == Denied(Error(StatusUnauthorized, "Invalid or expired token")))
  {
    var token := GenerateJWT(u, now, sign).value;
    assert sign(IssueClaims(u, now)).Some?;
    BearerTokenIff("Bearer " + token, token);
    IssuedTokenRoundTrip(u, now, at, sign, verify);
  }

  /** A header the format check lets through starts with "Bearer " and
      has no second space. */
  lemma AcceptedHeaderShape(header: string)
    requires BearerToken(header).Some?
    ensures |header| >= 7 && header[..7] == "Bearer " && ' ' !in header[7..]
  {
    var t := BearerToken(header).value;
    assert header[7..] == t;
  }

  /** The format check is exact: a lower-case scheme, a doubled space or a
      missing space are all refused. */
  lemma MalformedHeaderExamples(t: string)
    requires ' ' !in t
    ensures BearerToken("bearer " + t).None?
    ensures BearerToken("Bearer  " + t).None?
    ensures BearerToken("Bearer" + t).None?
  {
    var lower, doubled, glued := "bearer " + t, "Bearer  " + t, "Bearer" + t;
    assert lower[0] == 'b';
    assert doubled[7..][0] == ' ';
    assert |glued| >= 7 ==> glued[6] == t[0];
    if BearerToken(lower).Some? {
      AcceptedHeaderShape(lower);
      assert false;
    }
    if BearerToken(doubled).Some? {
      AcceptedHeaderShape(doubled);
      assert false;
    }
    if BearerToken(glued).Some? {
      AcceptedHeaderShape(glued);
      assert false;
    }
  }

  /** "Bearer " with nothing after it passes the format check and hands
      the empty token to validation. */
  lemma EmptyTokenPassesFormat()
    ensures BearerToken("Bearer ") == Some([])
  {
    BearerTokenIff("Bearer ", []);
  }
}
