/** The account handlers: `RegisterUser` (backend/internal/routes/
    user_route.go) and `LoginUser` (backend/internal/routes/auth.go). bcrypt
    hashing and comparison, token signing, the id and timestamp the users
    insert returns, and database failures that do not depend on the
    table's contents are inputs. */
module UserRoutes {
  import opened Outcomes
  import opened Models
  import opened Database
  import opened Jwt

  /** bcrypt `GenerateFromPassword` at the default cost; `None` is a
      hashing error. */
  type Hasher = string -> Option<string>

  /** bcrypt `CompareHashAndPassword(hash, password)` succeeds. */
  type Comparer = (string, string) -> bool

  /** What a sign-up needs beyond the request: the hasher and signer, the
      `id` and `created_at` the insert returns, the clock at token issue,
      and whether the insert fails for a reason other than a taken email
      or a taken id. */
  datatype RegisterEnv = RegisterEnv(
    hash: Hasher, sign: Signer, newId: string, createdAt: int, now: int, insertFault: bool)

  /** What a sign-in needs beyond the request: the comparer and signer,
      the clock, and whether the lookup fails for a reason other than "no
      such email". */
  datatype LoginEnv = LoginEnv(compare: Comparer, sign: Signer, now: int, lookupFault: bool)

  /** The account a successful insert creates. */
  function NewUser(req: RegisterUserRequest, hash: string, env: RegisterEnv): User {
    User(env.newId, req.email, hash, req.role, env.createdAt)
  }

  /** The insert violates a key of the users table: the email is taken,
      or the id the database issues is (the primary key). */
  predicate InsertConflicts(s: Store, email: string, env: RegisterEnv) {
    email in s.users || IsUserId(s, env.newId)
  }

  /** The sign-up reaches a successful insert: the body parsed, the
      password hashed, neither key is taken and the insert did not fail. */
  predicate Inserts(s: Store, body: Option<RegisterUserRequest>, env: RegisterEnv) {
    body.Some? && env.hash(body.value.password).Some? && !env.insertFault
    && !InsertConflicts(s, body.value.email, env)
  }

  function RegisterUser(s: Store, body: Option<RegisterUserRequest>, env: RegisterEnv): (r: Reply)
    ensures body.None? ==> r == Reply(Error(StatusBadRequest, "Invalid registration data"), s)
    ensures body.Some? && env.hash(body.value.password).None? ==>
      r == Reply(Error(StatusInternalServerError, "Could not process password"), s)
    ensures body.Some? && env.hash(body.value.password).Some?
            && (env.insertFault || InsertConflicts(s, body.value.email, env)) ==>
      r == Reply(Error(StatusInternalServerError, "Could not create user - email might already exist"), s)
    ensures r.store != s <==> Inserts(s, body, env)
    ensures Inserts(s, body, env) ==>
      var u := NewUser(body.value, env.hash(body.value.password).value, env);
      && r.store == s.(users := s.users[u.email := u])
      && (GenerateJWT(u, env.now, env.sign).None? ==>
            r.response == Error(StatusInternalServerError, "User created but could not generate authentication token"))
      && (GenerateJWT(u, env.now, env.sign).Some? ==>
            r.response == Response(StatusCreated, AuthBody(PublicView(u), GenerateJWT(u, env.now, env.sign).value)))
    ensures r.response.status == StatusCreated ==> r.store != s
    ensures forall e :: e in s.users ==> e in r.store.users && r.store.users[e] == s.users[e]
    ensures Valid(s) ==> Valid(r.store)
  {
    match body
    case None => Reply(Error(StatusBadRequest, "Invalid registration data"), s)
    case Some(req) =>
      match env.hash(req.password)
      case None => Reply(Error(StatusInternalServerError, "Could not process password"), s)
      case Some(h) =>
        if env.insertFault || InsertConflicts(s, req.email, env) then
          Reply(Error(StatusInternalServerError, "Could not create user - email might already exist"), s)
        else
          var u := NewUser(req, h, env);
          var t := s.(users := s.users[u.email := u]);
          AddUserKeepsValid(s, u);
          match GenerateJWT(u, env.now, env.sign)
          case None => Reply(Error(StatusInternalServerError, "User created but could not generate authentication token"), t)
          case Some(token) => Reply(Response(StatusCreated, AuthBody(PublicView(u), token)), t)
  }

  /** Filing a new account under an unused email and an unused id keeps
      the store well-formed: ids stay distinct, and every row keeps the
      owner it had. */
  lemma AddUserKeepsValid(s: Store, u: User)
    requires u.email !in s.users && !IsUserId(s, u.id)
    ensures Valid(s) ==> Valid(s.(users := s.users[u.email := u]))
  {
    var t := s.(users := s.users[u.email := u]);
    if Valid(s) {
      forall e, f | e in t.users && f in t.users && t.users[e].id == t.users[f].id
        ensures e == f
      {
        if e != u.email && f != u.email {
          assert t.users[e] == s.users[e] && t.users[f] == s.users[f];
        }
      }
      forall id | id in t.starthubs ensures IsUserId(t, t.starthubs[id].createdBy) {
        var e :| e in s.users && s.users[e].id == s.starthubs[id].createdBy;
        assert t.users[e] == s.users[e];
      }
    }
  }

  /** `LoginUser`. Signing in never writes, so it answers a response only. */
  function LoginUser(s: Store, body: Option<LoginRequest>, env: LoginEnv): (r: Response)
    ensures body.None? ==> r == Error(StatusBadRequest, "Invalid login data")
    ensures r.status == StatusUnauthorized ==> r == Error(StatusUnauthorized, "Invalid email or password")
    ensures r.status == StatusUnauthorized <==>
      body.Some? && (env.lookupFault || body.value.email !in s.users
                     || !env.compare(s.users[body.value.email].passwordHash, body.value.password))
    ensures r.status == StatusOK <==>
      body.Some? && !env.lookupFault && body.value.email in s.users
      && env.compare(s.users[body.value.email].passwordHash, body.value.password)
      && GenerateJWT(s.users[body.value.email], env.now, env.sign).Some?
    ensures r.status == StatusOK ==> var u := s.users[body.value.email];
      r == Response(StatusOK, AuthBody(PublicView(u), GenerateJWT(u, env.now, env.sign).value))
    ensures r.status !in {StatusOK, StatusBadRequest, StatusUnauthorized} ==>
      r == Error(StatusInternalServerError, "Could not generate authentication token")
  {
    match body
    case None => Error(StatusBadRequest, "Invalid login data")
    case Some(req) =>
      if env.lookupFault || req.email !in s.users then Error(StatusUnauthorized, "Invalid email or password")
      else
        var u := s.users[req.email];
        if !env.compare(u.passwordHash, req.password) then Error(StatusUnauthorized, "Invalid email or password")
        else match GenerateJWT(u, env.now, env.sign)
          case None => Error(StatusInternalServerError, "Could not generate authentication token")
          case Some(token) => Response(StatusOK, AuthBody(PublicView(u), token))
  }

  /** An unknown email and a wrong password for a known one are answered
      identically, so a failed sign-in does not tell which accounts exist. */
  lemma FailedSignInsLookAlike(s: Store, e: string, pw: string, u: User, wrong: string, env: LoginEnv)
    requires e !in s.users
    requires u.email in s.users && s.users[u.email] == u
    requires !env.compare(u.passwordHash, wrong)
    ensures LoginUser(s, Some(LoginRequest(e, pw)), env) == LoginUser(s, Some(LoginRequest(u.email, wrong)), env)
  {
  }

  /** bcrypt's promise: a password compares equal to every hash made of it. */
  ghost predicate HashMatches(hash: Hasher, compare: Comparer) {
    forall p :: hash(p).Some? ==> compare(hash(p).value, p)
  }

  /** Register, then sign in with the same email and password: the sign-in
      finds the new account and, whenever a token can be signed, answers
      200 with the same public user the sign-up created. */
  lemma RegisterThenLogin(s: Store, req: RegisterUserRequest, renv: RegisterEnv, lenv: LoginEnv)
    requires HashMatches(renv.hash, lenv.compare)
    requires RegisterUser(s, Some(req), renv).store != s
    requires !lenv.lookupFault
    ensures var t := RegisterUser(s, Some(req), renv).store;
      var u := NewUser(req, renv.hash(req.password).value, renv);
      var r := LoginUser(t, Some(LoginRequest(req.email, req.password)), lenv);
      && (r.status == StatusOK <==> GenerateJWT(u, lenv.now, lenv.sign).Some?)
      && (r.status == StatusOK ==> r.body.AuthBody? && r.body.user == PublicView(u))
      && r.status != StatusUnauthorized
  {
  }

  /** A second sign-up with a taken email changes nothing and is a 500. */
  lemma EmailTakenOnce(s: Store, req: RegisterUserRequest, env: RegisterEnv, again: RegisterUserRequest, env2: RegisterEnv)
    requires RegisterUser(s, Some(req), env).store != s
    requires again.email == req.email
    ensures var t := RegisterUser(s, Some(req), env).store;
      && RegisterUser(t, Some(again), env2).store == t
      && RegisterUser(t, Some(again), env2).response.status == StatusInternalServerError
  {
  }

  /** The token a sign-up answers with carries the request's email and
      role and the new account's id: validated while fresh, it yields
      exactly those claims. */
  lemma SignUpTokenCarriesRequest(s: Store, req: RegisterUserRequest, env: RegisterEnv, verify: Verifier, at: int)
    requires SignerMatchesVerifier(env.sign, verify, at)
    requires at < env.now + TokenDuration
    requires RegisterUser(s, Some(req), env).response.status == StatusCreated
    ensures var r := RegisterUser(s, Some(req), env).response;
      && r.body.AuthBody?
      && r.body.user.email == req.email && r.body.user.role == req.role && r.body.user.id == env.newId
      && var c := ValidateJWT(r.body.token, verify);
         c.Success? && c.value.email == req.email && c.value.role == req.role
         && c.value.userId == env.newId && c.value.subject == env.newId
  {
    var u := NewUser(req, env.hash(req.password).value, env);
    IssuedTokenRoundTrip(u, env.now, at, env.sign, verify);
  }
}
