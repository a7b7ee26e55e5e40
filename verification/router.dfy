/** The route table of backend/internal/app/router.go, with the "/" route
    that backend/internal/app/app.go registers before it, dispatched the
    way Fiber dispatches with its default configuration: the request path
    is matched case-insensitively and without trailing slashes, handlers
    are tried in registration order, a `Use` middleware matches every
    method under its path prefix, a GET route also answers HEAD, a `:id`
    parameter matches one non-empty segment, and a request no handler
    answers is a 405 listing the methods that do have a route for the path
    or, when there are none, a 404. A route's handlers run in order, each
    middleware either answering or handing on to the next. */
module Router {
  import opened Outcomes
  import opened Text
  import opened Models
  import opened Database
  import opened Validation
  import opened Jwt
  import opened AuthMiddleware
  import opened StartHubRoutes
  import opened UserRoutes

  datatype Method = Get | Head | Post | Put | Delete | Patch | Options

  /** An incoming request: the method (`verb`), the raw path, the Authorization
      header ("" when absent), the `name` query parameter ("" when absent),
      and what the body decodes to as each request struct (`None` when it
      does not decode as that struct). */
  datatype HttpRequest = HttpRequest(
    verb: Method,
    path: string,
    authorization: string,
    nameQuery: string,
    register: Option<RegisterUserRequest>,
    login: Option<LoginRequest>,
    create: Option<CreateStartHubRequest>)

  /** Everything outside the store a request may consult: the per-handler
      environments, the token parser, and the database answers that do
      not follow from the store (the listing, the search query, and a
      failing get-by-id lookup). */
  datatype Services = Services(
    register: RegisterEnv,
    login: LoginEnv,
    verify: Verifier,
    create: CreateEnv,
    listing: QueryResult,
    search: string -> QueryResult,
    lookupFault: bool)

  /** All trailing '/' removed. */
  function TrimTrailingSlashes(s: string): (r: string)
    ensures |r| <= |s| && r == s[..|r|]
    ensures r == [] || r[|r| - 1] != '/'
    ensures forall i :: |r| <= i < |s| ==> s[i] == '/'
  {
    if s == [] || s[|s| - 1] != '/' then s else TrimTrailingSlashes(s[..|s| - 1])
  }

  /** The path routes are matched against: lower-cased, and, unless it is
      a single character, without trailing slashes. */
  function DetectionPath(path: string): (d: string)
    ensures |d| <= |path|
    ensures forall i :: 0 <= i < |d| ==> d[i] == LowerChar(path[i])
    ensures forall i :: |d| <= i < |path| ==> path[i] == '/'
    ensures |path| > 1 ==> d == [] || d[|d| - 1] != '/'
    ensures |path| <= 1 ==> d == ToLower(path)
  {
    var lower := ToLower(path);
    if |lower| > 1 && lower[|lower| - 1] == '/' then TrimTrailingSlashes(lower) else lower
  }

  /** A GET route answers GET and HEAD. */
  predicate IsGet(m: Method) {
    m == Get || m == Head
  }

  const IdPrefix := "/starthubs/"

  /** The detection path matches "/starthubs/:id": one non-empty segment
      after the prefix. */
  predicate IsIdPath(d: string) {
    |d| > |IdPrefix| && d[..|IdPrefix|] == IdPrefix && '/' !in d[|IdPrefix|..]
  }

  /** The `:id` parameter: the segment of the raw path (case kept) at the
      place the detection path matched. */
  function IdParam(path: string): (id: string)
    requires IsIdPath(DetectionPath(path))
    ensures |id| == |DetectionPath(path)| - |IdPrefix| > 0
    ensures ToLower(id) == DetectionPath(path)[|IdPrefix|..]
  {
    var d := DetectionPath(path);
    path[|IdPrefix|..|d|]
  }

  /** Fiber's answer when no route matches. */
  const NotFound := Response(StatusNotFound, RouteNotFound)

  /** The routes of the table, as method and detection path, one line per
      registration; the `Use` middleware of the /api group is not a route. */
  predicate Registered(m: Method, d: string) {
    || (IsGet(m) && d == "/")
    || (m == Post && d == "/sign-up")
    || (m == Post && d == "/sign-in")
    || (m == Post && d == "/api/starthubs")
    || (IsGet(m) && d == "/starthubs")
    || (IsGet(m) && d == "/starthubs/search")
    || (IsGet(m) && IsIdPath(d))
  }

  /** The methods in the order Fiber lists them in an Allow header. */
  const MethodOrder: seq<Method> := [Get, Head, Post, Put, Delete, Options, Patch]

  /** A method's place in `MethodOrder`. */
  function Rank(m: Method): nat {
    match m
    case Get => 0
    case Head => 1
    case Post => 2
    case Put => 3
    case Delete => 4
    case Options => 5
    case Patch => 6
  }

  /** The methods of `ms` come in Fiber's order, each at most once. */
  predicate InMethodOrder(ms: seq<Method>) {
    forall i, j :: 0 <= i < j < |ms| ==> Rank(ms[i]) < Rank(ms[j])
  }

  function MethodName(m: Method): string {
    match m
    case Get => "GET"
    case Head => "HEAD"
    case Post => "POST"
    case Put => "PUT"
    case Delete => "DELETE"
    case Options => "OPTIONS"
    case Patch => "PATCH"
  }

  /** The methods among `ms` with a route for `d`, in order. */
  function RegisteredAmong(ms: seq<Method>, d: string): (r: seq<Method>)
    ensures forall m :: m in r <==> m in ms && Registered(m, d)
    ensures InMethodOrder(ms) ==> InMethodOrder(r)
  {
    if ms == [] then []
    else
      var rest := RegisteredAmong(ms[1..], d);
      var r := (if Registered(ms[0], d) then [ms[0]] else []) + rest;
      assert InMethodOrder(ms) ==> InMethodOrder(r) by {
        if InMethodOrder(ms) {
          HeadBelowTail(ms);
          if Registered(ms[0], d) {
            ConsOrdered(ms[0], rest);
          } else {
            assert r == rest;
          }
        }
      }
      r
  }

  /** The head of an ordered list ranks below everything after it. */
  lemma HeadBelowTail(ms: seq<Method>)
    requires |ms| > 0 && InMethodOrder(ms)
    ensures InMethodOrder(ms[1..])
    ensures forall m :: m in ms[1..] ==> Rank(ms[0]) < Rank(m)
  {
    forall m | m in ms[1..] ensures Rank(ms[0]) < Rank(m) {
      var j :| 0 <= j < |ms[1..]| && ms[1..][j] == m;
      assert ms[j + 1] == m;
    }
  }

  /** A method ranked below every element of an ordered list can lead it. */
  lemma ConsOrdered(m: Method, rest: seq<Method>)
    requires InMethodOrder(rest) && forall x :: x in rest ==> Rank(m) < Rank(x)
    ensures InMethodOrder([m] + rest)
  {
    var r := [m] + rest;
    forall i, j | 0 <= i < j < |r| ensures Rank(r[i]) < Rank(r[j]) {
      assert r[j] == rest[j - 1];
      if i > 0 {
        assert r[i] == rest[i - 1];
      }
    }
  }

  lemma MethodOrderIsOrdered()
    ensures InMethodOrder(MethodOrder)
  {
  }

  /** Every method is listed in `MethodOrder`. */
  lemma MethodOrderIsComplete(m: Method)
    ensures m in MethodOrder
  {
    match m
    case Get => assert MethodOrder[0] == m;
    case Head => assert MethodOrder[1] == m;
    case Post => assert MethodOrder[2] == m;
    case Put => assert MethodOrder[3] == m;
    case Delete => assert MethodOrder[4] == m;
    case Options => assert MethodOrder[5] == m;
    case Patch => assert MethodOrder[6] == m;
  }

  /** The Allow list for `d`: exactly the methods with a route for it. */
  function AllowedMethods(d: string): (ms: seq<Method>)
    ensures forall m :: m in ms <==> Registered(m, d)
    ensures InMethodOrder(ms)
  {
    forall m ensures m in MethodOrder { MethodOrderIsComplete(m); }
    MethodOrderIsOrdered();
    RegisteredAmong(MethodOrder, d)
  }

  /** The header names of a list of methods, position by position. */
  function Names(ms: seq<Method>): (names: seq<string>)
    ensures |names| == |ms|
    ensures forall i :: 0 <= i < |ms| ==> names[i] == MethodName(ms[i])
    ensures forall m :: m in ms ==> MethodName(m) in names
    ensures forall n :: n in names ==> exists m :: m in ms && n == MethodName(m)
  {
    var names := seq(|ms|, i requires 0 <= i < |ms| => MethodName(ms[i]));
    assert forall m :: m in ms ==> MethodName(m) in names by {
      forall m | m in ms ensures MethodName(m) in names {
        var i :| 0 <= i < |ms| && ms[i] == m;
        assert names[i] == MethodName(m);
      }
    }
    assert forall n :: n in names ==> exists m :: m in ms && n == MethodName(m) by {
      forall n | n in names ensures exists m :: m in ms && n == MethodName(m) {
        var i :| 0 <= i < |names| && names[i] == n;
        assert ms[i] in ms;
      }
    }
    names
  }

  /** Fiber's answer when the request's own method found no handler: 405
      with the methods that have a route for the path, or 404 when no
      method has one. */
  function Unmatched(d: string): (r: Response)
    ensures r.status == StatusMethodNotAllowed <==> exists m :: Registered(m, d)
    ensures r.status == StatusMethodNotAllowed ==>
      && r.body.MethodNotAllowed?
      && (forall m :: Registered(m, d) ==> MethodName(m) in r.body.allow)
      && (forall n :: n in r.body.allow ==> exists m :: Registered(m, d) && n == MethodName(m))
      && |r.body.allow| == |AllowedMethods(d)|
      && (forall i :: 0 <= i < |r.body.allow| ==> r.body.allow[i] == MethodName(AllowedMethods(d)[i]))
    ensures r.status != StatusMethodNotAllowed ==> r == NotFound
  {
    var ms := AllowedMethods(d);
    if ms == [] then NotFound
    else
      assert Registered(ms[0], d);
      Response(StatusMethodNotAllowed, MethodNotAllowed(Names(ms)))
  }

  /** The protected group: the auth middleware, then the create handler for
      POST /api/starthubs; any other request under /api that passes the
      check finds no handler. */
  function ServeApi(s: Store, req: HttpRequest, d: string, svc: Services): (r: Reply)
    ensures RequireAuth(req.authorization, svc.verify).Denied? ==>
      r == Reply(RequireAuth(req.authorization, svc.verify).response, s)
    ensures r.store != s ==>
      req.verb == Post && d == "/api/starthubs" && RequireAuth(req.authorization, svc.verify).Authorized?
  {
    match RequireAuth(req.authorization, svc.verify)
    case Denied(response) => Reply(response, s)
    case Authorized(locals) =>
      if req.verb == Post && d == "/api/starthubs" then CreateStartHub(s, locals.userId, req.create, svc.create)
      else Reply(Unmatched(d), s)
  }

  /** The handler chains of the route table, in registration order. */
  datatype Endpoint = Hello | SignUp | SignIn | Protected | ListHubs | SearchHubs | HubById | NoRoute

  /** The first entry of the table that matches the method and the
      detection path. */
  function Route(verb: Method, d: string): (e: Endpoint)
    ensures e == HubById ==> IsIdPath(d)
  {
    if IsGet(verb) && d == "/" then Hello
    else if verb == Post && d == "/sign-up" then SignUp
    else if verb == Post && d == "/sign-in" then SignIn
    else if "/api" <= d then Protected
    else if IsGet(verb) && d == "/starthubs" then ListHubs
    else if IsGet(verb) && d == "/starthubs/search" then SearchHubs
    else if IsGet(verb) && IsIdPath(d) then HubById
    else NoRoute
  }

  /** The whole application: one request against the store. */
  function Serve(s: Store, req: HttpRequest, svc: Services): (r: Reply)
  {
    var d := DetectionPath(req.path);
    match Route(req.verb, d)
    case Hello => Reply(Response(StatusOK, TextBody("Hello World")), s)
    case SignUp =>
      (match ValidateRegister(req.register)
       case Halt(response) => Reply(response, s)
       case Next => RegisterUser(s, req.register, svc.register))
    case SignIn =>
      (match ValidateLogin(req.login)
       case Halt(response) => Reply(response, s)
       case Next => Reply(LoginUser(s, req.login, svc.login), s))
    case Protected => ServeApi(s, req, d, svc)
    case ListHubs => Reply(GetAllStarthubs(svc.listing), s)
    case SearchHubs => Reply(GetStartHubsBySearchTerm(req.nameQuery, svc.search), s)
    case HubById => Reply(GetStartHubByID(s, IdParam(req.path), svc.lookupFault), s)
    case NoRoute => Reply(Unmatched(d), s)
  }

  /** Which entry answers which paths: the /api prefix catches every
      method, search is tried before `:id`, and any other single segment
      below "/starthubs/" is an id. */
  lemma RouteTable(verb: Method, d: string)
    ensures Route(verb, d) == SignUp <==> verb == Post && d == "/sign-up"
    ensures Route(verb, d) == SignIn <==> verb == Post && d == "/sign-in"
    ensures Route(verb, d) == Protected <==> "/api" <= d
    ensures Route(verb, d) == SearchHubs <==> IsGet(verb) && d == "/starthubs/search"
    ensures Route(verb, d) == HubById <==> IsGet(verb) && IsIdPath(d) && d != "/starthubs/search"
  {
    if "/api" <= d {
      assert d[1] == 'a';
      assert "/sign-up"[1] == 's' && "/sign-in"[1] == 's';
    }
    if IsIdPath(d) {
      assert d[..|IdPrefix|] == IdPrefix;
      assert d[1] == 's' && d[2] == 't' && |d| > 11;
      assert "/api"[1] == 'a';
    }
    if d == "/starthubs/search" {
      assert d[..|IdPrefix|] == IdPrefix;
      assert d[|IdPrefix|..] == "search";
    }
  }

  /** The route table and the registrations agree: a request finds no
      entry exactly when its method has no route for the path and the path
      is outside /api, and under /api the only route is POST
      /api/starthubs. */
  lemma RouteFollowsRegistration(verb: Method, d: string)
    ensures Route(verb, d) == NoRoute <==> !Registered(verb, d) && !("/api" <= d)
    ensures "/api" <= d ==> (Registered(verb, d) <==> verb == Post && d == "/api/starthubs")
  {
    RouteTable(verb, d);
    assert "/api" <= d ==> d[1] == 'a';
    assert "/sign-up"[1] == 's' && "/sign-in"[1] == 's';
    assert "/starthubs"[1] == 's' && "/starthubs/search"[1] == 's';
    assert IsIdPath(d) ==> d[..|IdPrefix|] == IdPrefix && d[1] == 's';
  }

  /** A request whose method has no route for its path (and, under /api,
      that passes the auth middleware) is answered by Fiber itself: 405 with the
      methods that do have a route, or 404 when none has. It writes
      nothing. */
  lemma UnroutedMethodAnswered(s: Store, req: HttpRequest, svc: Services)
    requires !Registered(req.verb, DetectionPath(req.path))
    requires "/api" <= DetectionPath(req.path) ==> RequireAuth(req.authorization, svc.verify).Authorized?
    ensures Serve(s, req, svc) == Reply(Unmatched(DetectionPath(req.path)), s)
  {
    RouteFollowsRegistration(req.verb, DetectionPath(req.path));
  }

  /** "/sign-up" has a POST route and no other. */
  lemma SignUpIsPostOnly(m: Method, d: string)
    requires d == "/sign-up"
    ensures Registered(m, d) <==> m == Post
  {
    assert d[1] == 's' && d[2] == 'i';
    assert "/starthubs"[2] == 't' && "/starthubs/search"[2] == 't';
    assert |d| < |IdPrefix|;
  }

  /** Fiber's own answer on /sign-up: 405 allowing POST only. */
  lemma SignUpUnmatched(d: string)
    requires d == "/sign-up"
    ensures var r := Unmatched(d);
      && r.status == StatusMethodNotAllowed && r.body.MethodNotAllowed?
      && "POST" in r.body.allow
      && forall n :: n in r.body.allow ==> n == "POST"
  {
    forall m ensures Registered(m, d) <==> m == Post {
      SignUpIsPostOnly(m, d);
    }
    assert Registered(Post, d) && MethodName(Post) == "POST";
  }

  /** Any other method on /sign-up is a 405 whose Allow list is "POST". */
  lemma SignUpOtherMethodIs405(s: Store, req: HttpRequest, svc: Services)
    requires req.verb != Post && DetectionPath(req.path) == "/sign-up"
    ensures var r := Serve(s, req, svc);
      && r.store == s && r.response.status == StatusMethodNotAllowed
      && r.response.body.MethodNotAllowed?
      && "POST" in r.response.body.allow
      && forall n :: n in r.response.body.allow ==> n == "POST"
  {
    var d := DetectionPath(req.path);
    SignUpIsPostOnly(req.verb, d);
    assert d[1] == 's' && "/api"[1] == 'a';
    UnroutedMethodAnswered(s, req, svc);
    SignUpUnmatched(d);
  }

  /** "/starthubs" has GET and HEAD routes and no other. */
  lemma ListingIsGetOnly(m: Method, d: string)
    requires d == "/starthubs"
    ensures Registered(m, d) <==> IsGet(m)
  {
    assert d[1] == 's' && d[2] == 't';
    assert "/sign-up"[2] == 'i' && "/sign-in"[2] == 'i';
    assert !IsIdPath(d);
  }

  /** Fiber's own answer on /starthubs: 405 allowing GET and HEAD only. */
  lemma ListingUnmatched(d: string)
    requires d == "/starthubs"
    ensures var r := Unmatched(d);
      && r.status == StatusMethodNotAllowed && r.body.MethodNotAllowed?
      && "GET" in r.body.allow && "HEAD" in r.body.allow
      && forall n :: n in r.body.allow ==> n == "GET" || n == "HEAD"
  {
    forall m ensures Registered(m, d) <==> IsGet(m) {
      ListingIsGetOnly(m, d);
    }
    assert Registered(Get, d) && MethodName(Get) == "GET" && MethodName(Head) == "HEAD";
  }

  /** A write to the public listing path is a 405 whose Allow list is GET
      and HEAD. */
  lemma ListingPostIs405(s: Store, req: HttpRequest, svc: Services)
    requires !IsGet(req.verb) && DetectionPath(req.path) == "/starthubs"
    ensures var r := Serve(s, req, svc);
      && r.store == s && r.response.status == StatusMethodNotAllowed
      && r.response.body.MethodNotAllowed?
      && "GET" in r.response.body.allow && "HEAD" in r.response.body.allow
      && forall n :: n in r.response.body.allow ==> n == "GET" || n == "HEAD"
  {
    var d := DetectionPath(req.path);
    ListingIsGetOnly(req.verb, d);
    assert d[1] == 's' && "/api"[1] == 'a';
    UnroutedMethodAnswered(s, req, svc);
    ListingUnmatched(d);
  }

  /** The only requests that write are a sign-up that passes validation
      and reaches its insert, and an authorised POST /api/starthubs whose
      transaction commits. */
  lemma OnlyTwoRoutesWrite(s: Store, req: HttpRequest, svc: Services)
    ensures var r := Serve(s, req, svc);
      var d := DetectionPath(req.path);
      r.store != s ==>
        || (req.verb == Post && d == "/sign-up" && ValidateRegister(req.register).Next?
            && Inserts(s, req.register, svc.register))
        || (req.verb == Post && d == "/api/starthubs"
            && RequireAuth(req.authorization, svc.verify).Authorized?
            && r.response.status == StatusCreated)
  {
    var d := DetectionPath(req.path);
    RouteTable(req.verb, d);
  }

  /** A sign-up the validator rejects is answered by the validator with a
      400 and never reaches the handler or the store. */
  lemma InvalidSignUpNeverReachesStore(s: Store, req: HttpRequest, svc: Services)
    requires req.verb == Post && DetectionPath(req.path) == "/sign-up"
    requires ValidateRegister(req.register).Halt?
    ensures Serve(s, req, svc) == Reply(ValidateRegister(req.register).response, s)
    ensures Serve(s, req, svc).response.status == StatusBadRequest
  {
  }

  /** A sign-in is validated before any lookup: a rejected one is the
      validator's 400, whatever the store and the services. */
  lemma SignInValidatedFirst(s: Store, t: Store, req: HttpRequest, svc: Services, svc2: Services)
    requires req.verb == Post && DetectionPath(req.path) == "/sign-in"
    requires ValidateLogin(req.login).Halt?
    ensures Serve(s, req, svc).response == Serve(t, req, svc2).response == ValidateLogin(req.login).response
    ensures Serve(s, req, svc).store == s
  {
  }

  /** Every path under /api, for every method, is behind the auth
      middleware: without an acceptable bearer token the answer is the
      middleware's 401 and nothing is written. */
  lemma ApiRequiresAuth(s: Store, req: HttpRequest, svc: Services)
    requires "/api" <= DetectionPath(req.path)
    requires RequireAuth(req.authorization, svc.verify).Denied?
    ensures Serve(s, req, svc) == Reply(RequireAuth(req.authorization, svc.verify).response, s)
    ensures Serve(s, req, svc).response.status == StatusUnauthorized
  {
    var d := DetectionPath(req.path);
    RouteTable(req.verb, d);
    assert Serve(s, req, svc) == ServeApi(s, req, d, svc);
  }

  /** GET and HEAD requests never write. */
  lemma ReadsDoNotWrite(s: Store, req: HttpRequest, svc: Services)
    requires IsGet(req.verb)
    ensures Serve(s, req, svc).store == s
  {
    RouteTable(req.verb, DetectionPath(req.path));
  }

  /** With update and delete unmounted, no request changes or removes an
      existing starthub or user: the store only grows. */
  lemma ExistingRecordsAreKept(s: Store, req: HttpRequest, svc: Services)
    ensures var t := Serve(s, req, svc).store;
      && (forall id :: id in s.starthubs ==> id in t.starthubs && t.starthubs[id] == s.starthubs[id])
      && (forall e :: e in s.users ==> e in t.users && t.users[e] == s.users[e])
      && s.links <= t.links
  {
    var d := DetectionPath(req.path);
    match Route(req.verb, d)
    case SignUp => SignUpKeepsRecords(s, req, svc);
    case Protected => ApiKeepsRecords(s, req, svc);
    case _ => OtherRoutesDoNotWrite(s, req, svc);
  }

  /** The sign-up route keeps every stored record. */
  lemma SignUpKeepsRecords(s: Store, req: HttpRequest, svc: Services)
    requires Route(req.verb, DetectionPath(req.path)) == SignUp
    ensures var t := Serve(s, req, svc).store;
      && (forall id :: id in s.starthubs ==> id in t.starthubs && t.starthubs[id] == s.starthubs[id])
      && (forall e :: e in s.users ==> e in t.users && t.users[e] == s.users[e])
      && s.links <= t.links
  {
    var r := RegisterUser(s, req.register, svc.register);
    if ValidateRegister(req.register).Next? {
      assert Serve(s, req, svc) == r;
      if r.store != s {
        assert r.store.starthubs == s.starthubs && r.store.links == s.links;
      }
    }
  }

  /** The /api group keeps every stored record. */
  lemma ApiKeepsRecords(s: Store, req: HttpRequest, svc: Services)
    requires Route(req.verb, DetectionPath(req.path)) == Protected
    ensures var t := Serve(s, req, svc).store;
      && (forall id :: id in s.starthubs ==> id in t.starthubs && t.starthubs[id] == s.starthubs[id])
      && (forall e :: e in s.users ==> e in t.users && t.users[e] == s.users[e])
      && s.links <= t.links
  {
    var g := RequireAuth(req.authorization, svc.verify);
    if g.Authorized? {
      CreateKeepsRecords(s, g.locals.userId, req.create, svc.create);
    }
  }

  /** Every entry other than sign-up and the /api group leaves the store
      as it was. */
  lemma OtherRoutesDoNotWrite(s: Store, req: HttpRequest, svc: Services)
    requires Route(req.verb, DetectionPath(req.path)) !in {SignUp, Protected}
    ensures Serve(s, req, svc).store == s
  {
  }

  /** Every request keeps the store well-formed. */
  lemma ServeKeepsValid(s: Store, req: HttpRequest, svc: Services)
    requires Valid(s)
    ensures Valid(Serve(s, req, svc).store)
  {
    var d := DetectionPath(req.path);
    match Route(req.verb, d)
    case SignUp =>
    case Protected =>
    case _ => OtherRoutesDoNotWrite(s, req, svc);
  }

  /** "/starthubs/search" is answered by the search handler, never by the
      get-by-id handler registered after it, although it also has the shape
      of "/starthubs/:id". */
  lemma SearchShadowsId(s: Store, req: HttpRequest, svc: Services)
    requires IsGet(req.verb) && DetectionPath(req.path) == "/starthubs/search"
    ensures IsIdPath(DetectionPath(req.path))
    ensures Serve(s, req, svc) == Reply(GetStartHubsBySearchTerm(req.nameQuery, svc.search), s)
  {
    SearchPathHasIdShape(DetectionPath(req.path));
    RouteTable(req.verb, DetectionPath(req.path));
  }

  lemma SearchPathHasIdShape(d: string)
    requires d == "/starthubs/search"
    ensures IsIdPath(d)
  {
    assert d[..|IdPrefix|] == IdPrefix;
    assert d[|IdPrefix|..] == "search";
  }

  /** A GET below "/starthubs/" other than the search path reaches
      get-by-id with the non-empty segment after the prefix ("/starthubs/"
      itself is the listing), so its "ID is required" answer is
      unreachable. */
  lemma IdIsNeverMissing(s: Store, req: HttpRequest, svc: Services)
    requires IsGet(req.verb) && IsIdPath(DetectionPath(req.path))
    requires DetectionPath(req.path) != "/starthubs/search"
    ensures IdParam(req.path) != []
    ensures Serve(s, req, svc) == Reply(GetStartHubByID(s, IdParam(req.path), svc.lookupFault), s)
    ensures Serve(s, req, svc).response.status != StatusBadRequest
  {
    RouteTable(req.verb, DetectionPath(req.path));
  }

  /** A trailing slash does not matter to matching: a lower-case path
      that does not end in '/' is detected as itself with one added. */
  lemma TrailingSlashIgnored(q: string)
    requires q != [] && q[|q| - 1] != '/' && ToLower(q) == q
    ensures DetectionPath(q + "/") == q
  {
    var p := q + "/";
    var d := DetectionPath(p);
    assert p[|p| - 1] == '/' && p[|p| - 2] == q[|q| - 1];
    assert LowerChar('/') == '/';
    assert |d| == |q|;
    forall j | 0 <= j < |q| ensures d[j] == q[j] {
      assert p[j] == q[j];
      assert ToLower(q)[j] == LowerChar(q[j]);
    }
  }

  /** A string without ASCII capitals is its own lower-case form. */
  lemma LowerWithoutCapitals(q: string)
    requires forall i :: 0 <= i < |q| ==> !IsUpperAscii(q[i])
    ensures ToLower(q) == q
  {
    assert forall i :: 0 <= i < |q| ==> ToLower(q)[i] == LowerChar(q[i]);
  }

  /** A lower-case id path with a trailing slash is detected as the id
      route, and its `:id` is the segment between the prefix and the slash. */
  lemma IdPathDetected(path: string, id: string)
    requires id != [] && '/' !in id && id != "search"
    requires forall i :: 0 <= i < |id| ==> !IsUpperAscii(id[i])
    requires path == IdPrefix + id + "/"
    ensures DetectionPath(path) == IdPrefix + id
    ensures IsIdPath(DetectionPath(path)) && DetectionPath(path) != "/starthubs/search"
    ensures IdParam(path) == id
  {
    var q := IdPrefix + id;
    assert forall i :: 0 <= i < |IdPrefix| ==> IdPrefix[i] in "/starthubs";
    LowerWithoutCapitals(q);
    assert q[|q| - 1] == id[|id| - 1];
    assert path == q + "/";
    TrailingSlashIgnored(q);
    assert q[..|IdPrefix|] == IdPrefix && q[|IdPrefix|..] == id;
    assert "/starthubs/search"[|IdPrefix|..] == "search";
    assert path[|IdPrefix|..|q|] == id;
  }

  /** A get-by-id path with a trailing slash answers what the handler
      answers for its `:id` segment, taken from the raw path. */
  lemma IdRouteExample(s: Store, req: HttpRequest, svc: Services, id: string)
    requires IsGet(req.verb)
    requires id != [] && '/' !in id && id != "search"
    requires forall i :: 0 <= i < |id| ==> !IsUpperAscii(id[i])
    requires req.path == IdPrefix + id + "/"
    ensures Serve(s, req, svc) == Reply(GetStartHubByID(s, id, svc.lookupFault), s)
  {
    IdPathDetected(req.path, id);
    IdIsNeverMissing(s, req, svc);
  }

  /** How the two public POST routes dispatch: the validator first, the
      handler only when the validator hands on. */
  lemma ServeAccountRoutes(s: Store, req: HttpRequest, svc: Services)
    ensures Route(req.verb, DetectionPath(req.path)) == SignUp ==>
      Serve(s, req, svc) == if ValidateRegister(req.register).Next? then RegisterUser(s, req.register, svc.register)
                            else Reply(ValidateRegister(req.register).response, s)
    ensures Route(req.verb, DetectionPath(req.path)) == SignIn ==>
      Serve(s, req, svc) == if ValidateLogin(req.login).Next? then Reply(LoginUser(s, req.login, svc.login), s)
                            else Reply(ValidateLogin(req.login).response, s)
  {
  }

  /** A sign-up the validator passes reaches the handler. */
  lemma SignUpReachesInsert(s: Store, up: HttpRequest, svc: Services)
    requires up.verb == Post && DetectionPath(up.path) == "/sign-up"
    requires ValidateRegister(up.register).Next?
    ensures Serve(s, up, svc) == RegisterUser(s, up.register, svc.register)
  {
    RouteTable(up.verb, DetectionPath(up.path));
    ServeAccountRoutes(s, up, svc);
  }

  /** A sign-in with credentials that pass sign-up validation reaches the
      login handler. */
  lemma SignInReachesLogin(t: Store, signIn: HttpRequest, svc: Services, reg: RegisterUserRequest)
    requires signIn.verb == Post && DetectionPath(signIn.path) == "/sign-in"
    requires ValidateRegister(Some(reg)).Next?
    requires signIn.login == Some(LoginRequest(reg.email, reg.password))
    ensures Serve(t, signIn, svc) == Reply(LoginUser(t, signIn.login, svc.login), t)
  {
    RouteTable(signIn.verb, DetectionPath(signIn.path));
    ServeAccountRoutes(t, signIn, svc);
    RegistrationPassesLogin(reg);
  }

  /** End to end: after a sign-up that passes validation and reaches its
      insert, a sign-in with the same email and password passes validation,
      finds the account and is answered 200 with it whenever a token can be
      signed; it writes nothing. */
  lemma SignUpThenSignIn(s: Store, up: HttpRequest, signIn: HttpRequest, svc: Services)
    requires HashMatches(svc.register.hash, svc.login.compare)
    requires !svc.login.lookupFault
    requires up.verb == Post && DetectionPath(up.path) == "/sign-up"
    requires ValidateRegister(up.register).Next? && Inserts(s, up.register, svc.register)
    requires signIn.verb == Post && DetectionPath(signIn.path) == "/sign-in"
    requires signIn.login == Some(LoginRequest(up.register.value.email, up.register.value.password))
    ensures var t := Serve(s, up, svc).store;
      var u := NewUser(up.register.value, svc.register.hash(up.register.value.password).value, svc.register);
      var r := Serve(t, signIn, svc);
      && r.store == t
      && (r.response.status == StatusOK <==> GenerateJWT(u, svc.login.now, svc.login.sign).Some?)
      && (r.response.status == StatusOK ==> r.response.body.AuthBody? && r.response.body.user == PublicView(u))
  {
    var reg := up.register.value;
    SignUpReachesInsert(s, up, svc);
    var t := Serve(s, up, svc).store;
    SignInReachesLogin(t, signIn, svc, reg);
    RegisterThenLogin(s, reg, svc.register, svc.login);
  }

  /** End to end: a token issued for `u` and presented as a bearer token on
      POST /api/starthubs reaches the create handler with `u`'s id as the
      owner while the token is fresh, and is refused with 401 once it has
      expired, without touching the store. */
  lemma IssuedTokenReachesCreate(s: Store, u: User, now: int, at: int, sign: Signer, req: HttpRequest, svc: Services)
    requires SignerMatchesVerifier(sign, svc.verify, at)
    requires GenerateJWT(u, now, sign).Some?
    requires req.verb == Post && DetectionPath(req.path) == "/api/starthubs"
    requires req.authorization == "Bearer " + GenerateJWT(u, now, sign).value
    ensures at < now + TokenDuration ==> Serve(s, req, svc) == CreateStartHub(s, u.id, req.create, svc.create)
    ensures at >= now + TokenDuration ==>
      Serve(s, req, svc) == Reply(Error(StatusUnauthorized, "Invalid or expired token"), s)
  {
    var d := DetectionPath(req.path);
    assert d[..4] == "/api";
    RouteTable(req.verb, d);
    IssuedTokenAuthorizes(u, now, at, sign, svc.verify);
  }
}
