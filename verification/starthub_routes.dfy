/** The starthub handlers of backend/internal/routes/starthub_route.go over
    the abstract store: list, search, get-by-id, the transactional create,
    and the owner-guarded update and delete. Each database call that can
    fail independently of the store's contents takes its failure as an
    input; the create transaction takes "the step at which it fails". */
module StartHubRoutes {
  import opened Outcomes
  import opened Models
  import opened Database
  import opened Images

  /** The outcome of a multi-row SELECT: the rows, a failed query, or a row
      that could not be scanned. */
  datatype QueryResult = Rows(rows: seq<StartHub>) | QueryFailed | ScanFailed

  // ---------------------------------------------------------------- list

  function GetAllStarthubs(result: QueryResult): (r: Response)
    ensures r.status == StatusOK <==> result.Rows?
    ensures result.Rows? ==> r.body == HubListBody(result.rows)
    ensures result.QueryFailed? ==> r == Error(StatusInternalServerError, "Could not get starthubs from database")
    ensures result.ScanFailed? ==> r == Error(StatusInternalServerError, "Could not read data from database")
  {
    match result
    case QueryFailed => Error(StatusInternalServerError, "Could not get starthubs from database")
    case ScanFailed => Error(StatusInternalServerError, "Could not read data from database")
    case Rows(rows) => Response(StatusOK, HubListBody(rows))
  }

  // -------------------------------------------------------------- search

  /** The ILIKE pattern: the term with a wildcard on each side. */
  function SearchPattern(term: string): (p: string)
    ensures |p| == |term| + 2 && p[0] == '%' && p[|p| - 1] == '%' && p[1..|p| - 1] == term
  {
    "%" + term + "%"
  }

  /** `GetStartHubsBySearchTerm`. `query` answers a pattern with the rows
      whose name matches it. */
  function GetStartHubsBySearchTerm(term: string, query: string -> QueryResult): (r: Response)
    ensures term == [] ==> r == Error(StatusBadRequest, "Search term 'name' is required.")
    ensures term != [] && query(SearchPattern(term)).Rows? ==>
      var rows := query(SearchPattern(term)).rows;
      r == Response(StatusOK, SearchBody(term, |rows|, rows))
    ensures term != [] && query(SearchPattern(term)).QueryFailed? ==>
      r == Error(StatusInternalServerError, "Could not search starthubs")
    ensures term != [] && query(SearchPattern(term)).ScanFailed? ==>
      r == Error(StatusInternalServerError, "Could not process results")
  {
    if term == [] then Error(StatusBadRequest, "Search term 'name' is required.")
    else match query(SearchPattern(term))
      case QueryFailed => Error(StatusInternalServerError, "Could not search starthubs")
      case ScanFailed => Error(StatusInternalServerError, "Could not process results")
      case Rows(rows) => Response(StatusOK, SearchBody(term, |rows|, rows))
  }

  /** A search answers 200, 400 or 500 and never 404: a term nothing matches
      is a 200 with `found == 0`; every 200 reports as `found` the number of
      results it carries; only the empty term is a 400, so a term of spaces
      is searched for; and only the wrapped term reaches the query. */
  lemma SearchOutcomes(term: string, query: string -> QueryResult, other: string -> QueryResult)
    ensures var r := GetStartHubsBySearchTerm(term, query);
      && r.status in {StatusOK, StatusBadRequest, StatusInternalServerError}
      && (r.status == StatusOK ==> r.body.SearchBody? && r.body.found == |r.body.results| && r.body.searchTerm == term)
      && (r.status == StatusBadRequest <==> term == [])
      && (term != [] && query(SearchPattern(term)) == Rows([]) ==> r == Response(StatusOK, SearchBody(term, 0, [])))
    ensures query(SearchPattern(term)) == other(SearchPattern(term)) ==>
      GetStartHubsBySearchTerm(term, query) == GetStartHubsBySearchTerm(term, other)
  {
  }

  // ---------------------------------------------------------- get by id

  /** `GetStartHubByID`. `fault` is a database error other than "no rows". */
  function GetStartHubByID(s: Store, id: string, fault: bool): (r: Response)
    ensures r.status == StatusBadRequest <==> id == []
    ensures r.status == StatusNotFound <==> id != [] && !fault && id !in s.starthubs
    ensures r.status == StatusInternalServerError <==> id != [] && fault
    ensures r.status == StatusOK <==> id != [] && !fault && id in s.starthubs
    ensures r.status == StatusOK ==> r.body == HubBody(View(s.starthubs[id]))
    ensures r.status == StatusNotFound ==> r.body == ErrorBody("Starthub not found")
    ensures r.status == StatusBadRequest ==> r.body == ErrorBody("ID is required")
    ensures r.status == StatusInternalServerError ==> r.body == ErrorBody("Could not get starthub from database")
  {
    if id == [] then Error(StatusBadRequest, "ID is required")
    else if fault then Error(StatusInternalServerError, "Could not get starthub from database")
    else if id !in s.starthubs then Error(StatusNotFound, "Starthub not found")
    else Response(StatusOK, HubBody(View(s.starthubs[id])))
  }

  // -------------------------------------------------------------- create

  /** Where the create transaction fails, if anywhere: at `Begin`, at the
      row insert, at the category upsert or the link insert for the
      category at position `index` of the request, or at commit. */
  datatype TxFault =
    | NoFault
    | AtBegin
    | AtInsert
    | AtCategory(index: nat)
    | AtLink(index: nat)
    | AtCommit

  /** The inputs of a create that are not in the request: the image
      service, the id and the timestamp the row insert returns, and the
      failing step. */
  datatype CreateEnv = CreateEnv(images: ImageService, newId: string, now: int, fault: TxFault)

  /** The distinct non-empty names at positions `from` onwards. */
  function NamesFrom(names: seq<string>, from: nat): set<string> {
    set i | from <= i < |names| && names[i] != [] :: names[i]
  }

  /** The links from `hub` to the categories named in `ns`. */
  function LinksFor(hub: string, ns: set<string>, cats: map<string, int>): set<(string, int)> {
    set n | n in ns && n in cats :: (hub, cats[n])
  }

  /** The category step fails only when that step runs, that is, when the
      category at the faulty position is non-empty. */
  predicate CategoryStepFails(fault: TxFault, names: seq<string>, from: nat) {
    (fault.AtCategory? || fault.AtLink?) && from <= fault.index < |names| && names[fault.index] != []
  }

  datatype Upserted = Upserted(store: Store, id: int)

  /** `INSERT ... ON CONFLICT (name) DO UPDATE ... RETURNING id`: the
      existing id for a known name, a fresh id for a new one. */
  function UpsertCategory(s: Store, name: string): (u: Upserted)
    ensures u.store.users == s.users && u.store.starthubs == s.starthubs && u.store.links == s.links
    ensures name in u.store.categories && u.id == u.store.categories[name]
    ensures name in s.categories ==> u == Upserted(s, s.categories[name])
    ensures name !in s.categories ==>
      && u.store.categories == s.categories[name := s.nextCategoryId]
      && u.id == s.nextCategoryId
      && u.store.nextCategoryId == s.nextCategoryId + 1
  {
    if name in s.categories then Upserted(s, s.categories[name])
    else
      Upserted(s.(categories := s.categories[name := s.nextCategoryId],
                  nextCategoryId := s.nextCategoryId + 1),
               s.nextCategoryId)
  }

  lemma UpsertKeepsValid(s: Store, name: string)
    ensures Valid(s) && name != [] ==> Valid(UpsertCategory(s, name).store)
    ensures UpsertCategory(s, name).id in UpsertCategory(s, name).store.categories.Values
  {
    var u := UpsertCategory(s, name);
    assert u.store.categories[name] == u.id;
    if Valid(s) && name != [] && name !in s.categories {
      var c := u.store.categories;
      forall l | l in u.store.links
        ensures l.1 in c.Values
      {
        var n :| n in s.categories && s.categories[n] == l.1;
        assert c[n] == l.1;
      }
      forall n, m | n in c && m in c && c[n] == c[m]
        ensures n == m
      {
        if n != name && m != name {
          assert s.categories[n] == s.categories[m];
        }
      }
    }
  }

  /** What the category loop did to `s` to give `t`, for the names `ns`:
      nothing outside the category and link tables; every name in `ns` has
      a category, old ones keep their ids and new ones get ids from the
      counter; and the links added are exactly those from `hub` to the
      categories of `ns`. */
  ghost predicate Linked(s: Store, t: Store, hub: string, ns: set<string>) {
    && t.users == s.users && t.starthubs == s.starthubs
    && t.categories.Keys == s.categories.Keys + ns
    && (forall n :: n in s.categories ==> t.categories[n] == s.categories[n])
    && (forall n :: n in t.categories && n !in s.categories ==> s.nextCategoryId <= t.categories[n])
    && s.nextCategoryId <= t.nextCategoryId
    && t.links == s.links + LinksFor(hub, ns, t.categories)
  }

  lemma NamesFromStep(names: seq<string>, from: nat)
    requires from < |names|
    ensures NamesFrom(names, from) == (if names[from] != [] then {names[from]} else {}) + NamesFrom(names, from + 1)
  {
    var l := NamesFrom(names, from);
    var r := (if names[from] != [] then {names[from]} else {}) + NamesFrom(names, from + 1);
    forall n | n in l ensures n in r {
      var i :| from <= i < |names| && names[i] != [] && names[i] == n;
      if i > from {
        assert n in NamesFrom(names, from + 1);
      }
    }
  }

  /** One iteration of the loop on a non-empty name composes with the rest. */
  lemma LinkedStep(s: Store, u: Upserted, s2: Store, t: Store, hub: string, name: string, rest: set<string>)
    requires u == UpsertCategory(s, name)
    requires s2 == u.store.(links := u.store.links + {(hub, u.id)})
    requires Linked(s2, t, hub, rest)
    ensures Linked(s, t, hub, {name} + rest)
  {
    var ns := {name} + rest;
    assert t.categories[name] == u.id;
    assert LinksFor(hub, ns, t.categories) == {(hub, u.id)} + LinksFor(hub, rest, t.categories) by {
      forall x | x in LinksFor(hub, ns, t.categories)
        ensures x in {(hub, u.id)} + LinksFor(hub, rest, t.categories)
      {
        var n :| n in ns && n in t.categories && x == (hub, t.categories[n]);
        if n != name {
          assert n in rest;
        }
      }
    }
  }

  /** The category loop of the create transaction, from position `from` on:
      empty names are skipped; each other name is upserted and then linked
      to `hub`, ignoring a link that already exists. */
  function LinkCategories(s: Store, hub: string, names: seq<string>, from: nat, fault: TxFault)
    : (r: Result<Store, string>)
    requires from <= |names|
    decreases |names| - from
    ensures r.Success? <==> !CategoryStepFails(fault, names, from)
    ensures r.Failure? ==>
      r.error == (if fault.AtCategory? then "Could not process categories" else "Could not link categories")
    ensures r.Success? ==> Linked(s, r.value, hub, NamesFrom(names, from))
  {
    if from == |names| then
      assert NamesFrom(names, from) == {};
      Success(s)
    else if names[from] == [] then
      NamesFromStep(names, from);
      LinkCategories(s, hub, names, from + 1, fault)
    else if fault == AtCategory(from) then
      Failure("Could not process categories")
    else
      var u := UpsertCategory(s, names[from]);
      if fault == AtLink(from) then
        Failure("Could not link categories")
      else
        var s2 := u.store.(links := u.store.links + {(hub, u.id)});
        var r := LinkCategories(s2, hub, names, from + 1, fault);
        NamesFromStep(names, from);
        if r.Success? then LinkedStep(s, u, s2, r.value, hub, names[from], NamesFrom(names, from + 1)); r
        else r
  }

  /** The category loop keeps a well-formed store well-formed once the row
      it links to exists: every category it adds has a non-empty name and
      a fresh id, and every link it adds joins that row to an existing
      category. */
  lemma {:induction false} LinkCategoriesKeepsValid(s: Store, hub: string, names: seq<string>, from: nat, fault: TxFault)
    requires from <= |names|
    requires Valid(s) && hub in s.starthubs
    decreases |names| - from
    ensures LinkCategories(s, hub, names, from, fault).Success? ==>
      Valid(LinkCategories(s, hub, names, from, fault).value)
  {
    if from == |names| {
    } else if names[from] == [] {
      LinkCategoriesKeepsValid(s, hub, names, from + 1, fault);
    } else if fault == AtCategory(from) || fault == AtLink(from) {
    } else {
      var u := UpsertCategory(s, names[from]);
      var s2 := u.store.(links := u.store.links + {(hub, u.id)});
      LinkStepKeepsValid(s, names[from], hub);
      LinkCategoriesKeepsValid(s2, hub, names, from + 1, fault);
    }
  }

  /** The row insert and then the category loop keep a well-formed store
      well-formed. */
  lemma InsertThenLinkKeepsValid(s: Store, s1: Store, hub: string, names: seq<string>, fault: TxFault)
    requires hub in s1.starthubs && s1 == s.(starthubs := s1.starthubs)
    requires s1.starthubs == s.starthubs[hub := s1.starthubs[hub]] && s1.starthubs[hub].id == hub
    requires IsUserId(s, s1.starthubs[hub].createdBy)
    ensures Valid(s) && LinkCategories(s1, hub, names, 0, fault).Success? ==>
      Valid(LinkCategories(s1, hub, names, 0, fault).value)
  {
    if Valid(s) {
      assert Valid(s1);
      LinkCategoriesKeepsValid(s1, hub, names, 0, fault);
    }
  }

  /** One upsert-and-link step keeps a well-formed store well-formed. */
  lemma LinkStepKeepsValid(s: Store, name: string, hub: string)
    requires Valid(s) && name != [] && hub in s.starthubs
    ensures var u := UpsertCategory(s, name);
      var s2 := u.store.(links := u.store.links + {(hub, u.id)});
      Valid(s2) && hub in s2.starthubs
  {
    UpsertKeepsValid(s, name);
  }

  /** The inserted row: the request's fields, the resolved image, the
      caller as owner, and the id and join date the insert returned. */
  function NewRow(id: string, req: CreateStartHubRequest, imageUrl: string, now: int, userId: string): Row {
    Row(id, req.name, req.description, req.location, req.teamSize, req.url, req.email, now, imageUrl, userId)
  }

  /** The store with `row` inserted under its id. */
  function WithRow(s: Store, row: Row): Store {
    s.(starthubs := s.starthubs[row.id := row])
  }

  /** The row insert violates a key: the returned id is taken, or the
      owner `created_by` names no stored account. */
  predicate InsertRejected(s: Store, userId: string, env: CreateEnv) {
    env.newId in s.starthubs || !IsUserId(s, userId)
  }

  /** The transaction fails exactly when the failing step is reached: begin,
      insert and commit always run, a category step only for a non-empty
      name, and an insert that violates a key fails too. */
  predicate TransactionFails(s: Store, userId: string, req: CreateStartHubRequest, env: CreateEnv) {
    || env.fault == AtBegin || env.fault == AtInsert || env.fault == AtCommit
    || InsertRejected(s, userId, env)
    || CategoryStepFails(env.fault, req.categories, 0)
  }

  /** The transaction: begin, insert the row, run the category loop,
      commit. It succeeds exactly when no step fails, and then its effect is
      the row insert followed by the category loop; on failure the caller
      keeps the old store, which is the rollback. */
  function RunCreateTransaction(s: Store, userId: string, req: CreateStartHubRequest, imageUrl: string, env: CreateEnv)
    : (r: Result<Store, string>)
    ensures r.Success? <==> !TransactionFails(s, userId, req, env)
    ensures r.Success? ==>
      Linked(WithRow(s, NewRow(env.newId, req, imageUrl, env.now, userId)), r.value,
             env.newId, NamesFrom(req.categories, 0))
    ensures r.Success? && Valid(s) ==> Valid(r.value)
    ensures env.fault == AtBegin ==> r == Failure("Database transaction error")
    ensures env.fault != AtBegin && (env.fault == AtInsert || InsertRejected(s, userId, env)) ==>
      r == Failure("Could not save starthub to database")
    ensures env.fault == AtCommit && !InsertRejected(s, userId, env) ==>
      r == Failure("Could not complete starthub creation")
    ensures !InsertRejected(s, userId, env) && CategoryStepFails(env.fault, req.categories, 0) ==>
      r == Failure(if env.fault.AtCategory? then "Could not process categories" else "Could not link categories")
  {
    if env.fault == AtBegin then Failure("Database transaction error")
    else if env.fault == AtInsert || InsertRejected(s, userId, env) then Failure("Could not save starthub to database")
    else
      var s1 := WithRow(s, NewRow(env.newId, req, imageUrl, env.now, userId));
      InsertThenLinkKeepsValid(s, s1, env.newId, req.categories, env.fault);
      match LinkCategories(s1, env.newId, req.categories, 0, env.fault)
      case Failure(e) => Failure(e)
      case Success(s2) =>
        if env.fault == AtCommit then Failure("Could not complete starthub creation") else Success(s2)
  }

  /** `CreateStartHub` for the caller `userId` (the `user_id` local the
      auth middleware set). */
  function CreateStartHub(s: Store, userId: string, body: Option<CreateStartHubRequest>, env: CreateEnv): (r: Reply)
    ensures body.None? ==> r == Reply(Error(StatusBadRequest, "Invalid data in request"), s)
    ensures body.Some? && body.value.name == [] ==> r == Reply(Error(StatusBadRequest, "Name is required"), s)
    ensures body.Some? && body.value.name != [] && body.value.email == [] ==>
      r == Reply(Error(StatusBadRequest, "Email is required"), s)
    ensures r.response.status == StatusCreated <==>
      body.Some? && body.value.name != [] && body.value.email != [] && !TransactionFails(s, userId, body.value, env)
    ensures r.response.status != StatusCreated ==>
      r.store == s && r.response.status in {StatusBadRequest, StatusInternalServerError}
    ensures r.response.status == StatusCreated ==>
      var req := body.value;
      var image := ResolveImage(req.categories, env.images);
      && Linked(WithRow(s, NewRow(env.newId, req, image, env.now, userId)), r.store,
                env.newId, NamesFrom(req.categories, 0))
      && r.response.body == HubBody(StartHub(env.newId, req.name, req.description, req.location,
                                             req.teamSize, req.url, req.email, env.now,
                                             req.categories, image))
    ensures r.response.status == StatusCreated && Valid(s) ==> Valid(r.store)
  {
    match body
    case None => Reply(Error(StatusBadRequest, "Invalid data in request"), s)
    case Some(req) =>
      if req.name == [] then Reply(Error(StatusBadRequest, "Name is required"), s)
      else if req.email == [] then Reply(Error(StatusBadRequest, "Email is required"), s)
      else
        var image := ResolveImage(req.categories, env.images);
        match RunCreateTransaction(s, userId, req, image, env)
        case Failure(e) => Reply(Error(StatusInternalServerError, e), s)
        case Success(t) =>
          var hub := StartHub(env.newId, req.name, req.description, req.location, req.teamSize,
                              req.url, req.email, env.now, req.categories, image);
          Reply(Response(StatusCreated, HubBody(hub)), t)
  }

  /** A create only adds: every existing row and account is kept as it
      was, and so is every existing link. */
  lemma CreateKeepsRecords(s: Store, userId: string, body: Option<CreateStartHubRequest>, env: CreateEnv)
    ensures var t := CreateStartHub(s, userId, body, env).store;
      && (forall id :: id in s.starthubs ==> id in t.starthubs && t.starthubs[id] == s.starthubs[id])
      && (forall e :: e in s.users ==> e in t.users && t.users[e] == s.users[e])
      && s.links <= t.links
  {
    var r := CreateStartHub(s, userId, body, env);
    if r.response.status == StatusCreated {
      var req := body.value;
      var row := NewRow(env.newId, req, ResolveImage(req.categories, env.images), env.now, userId);
      assert r.store.starthubs == WithRow(s, row).starthubs;
    }
  }

  /** The 500 answers of a create name the step that failed; whatever the
      step, the store is left as it was (the deferred rollback). */
  lemma CreateFailureMessages(s: Store, userId: string, req: CreateStartHubRequest, env: CreateEnv)
    requires req.name != [] && req.email != []
    ensures var r := CreateStartHub(s, userId, Some(req), env);
      && (env.fault == AtBegin ==> r == Reply(Error(StatusInternalServerError, "Database transaction error"), s))
      && (env.fault == AtInsert || InsertRejected(s, userId, env) ==>
            r.response.status == StatusInternalServerError && r.store == s)
      && (env.fault == AtInsert ==>
            r == Reply(Error(StatusInternalServerError, "Could not save starthub to database"), s))
      && (!InsertRejected(s, userId, env) && CategoryStepFails(env.fault, req.categories, 0) ==>
            r == Reply(Error(StatusInternalServerError,
                             if env.fault.AtCategory? then "Could not process categories"
                             else "Could not link categories"), s))
      && (env.fault == AtCommit && !InsertRejected(s, userId, env) ==>
            r == Reply(Error(StatusInternalServerError, "Could not complete starthub creation"), s))
  {
  }

  /** A link failure on the second of two categories rolls the whole
      create back: the row is not stored, nor is the first category or its
      link. */
  lemma SecondLinkFailureRollsBack(s: Store, userId: string, req: CreateStartHubRequest, env: CreateEnv)
    requires req.name != [] && req.email != []
    requires |req.categories| == 2 && req.categories[1] != []
    requires !InsertRejected(s, userId, env) && env.fault == AtLink(1)
    ensures CreateStartHub(s, userId, Some(req), env)
      == Reply(Error(StatusInternalServerError, "Could not link categories"), s)
  {
    CreateFailureMessages(s, userId, req, env);
  }

  /** A fault at a position holding an empty name never fires, since that
      position is skipped; so does a fault past the end of the list. */
  lemma SkippedPositionsCannotFail(s: Store, userId: string, req: CreateStartHubRequest, env: CreateEnv)
    requires req.name != [] && req.email != []
    requires !InsertRejected(s, userId, env)
    requires env.fault.AtCategory? || env.fault.AtLink?
    requires env.fault.index >= |req.categories| || req.categories[env.fault.index] == []
    ensures CreateStartHub(s, userId, Some(req), env).response.status == StatusCreated
  {
  }

  /** After a successful create on a well-formed store the new row is owned
      by the caller, a later get-by-id answers the created fields with an
      empty category list (the lookup does not select categories), and the
      links of the new row are exactly one per distinct non-empty category
      name of the request. */
  lemma CreateThenGet(s: Store, userId: string, req: CreateStartHubRequest, env: CreateEnv)
    requires Valid(s)
    requires CreateStartHub(s, userId, Some(req), env).response.status == StatusCreated
    ensures OwnedBy(CreateStartHub(s, userId, Some(req), env).store, env.newId, userId)
    ensures var r := CreateStartHub(s, userId, Some(req), env);
      env.newId != [] ==>
        r.response.body.HubBody?
        && GetStartHubByID(r.store, env.newId, false) == Response(StatusOK, HubBody(r.response.body.hub.(categories := [])))
    ensures var r := CreateStartHub(s, userId, Some(req), env);
      (set l | l in r.store.links && l.0 == env.newId)
        == LinksFor(env.newId, NamesFrom(req.categories, 0), r.store.categories)
  {
    var r := CreateStartHub(s, userId, Some(req), env);
    var image := ResolveImage(req.categories, env.images);
    var row := NewRow(env.newId, req, image, env.now, userId);
    assert r.store.starthubs == WithRow(s, row).starthubs;
    assert r.store.starthubs[env.newId] == row;
    forall l | l in s.links ensures l.0 != env.newId {
    }
  }

  /** Repeating a category in one request makes one category and one link:
      with the names ["tech", "tech"] the new row gets the single link to
      the id of "tech". */
  lemma DuplicateCategoryLinkedOnce(s: Store, userId: string, req: CreateStartHubRequest, env: CreateEnv)
    requires Valid(s)
    requires req.categories == ["tech", "tech"]
    requires CreateStartHub(s, userId, Some(req), env).response.status == StatusCreated
    ensures var t := CreateStartHub(s, userId, Some(req), env).store;
      && "tech" in t.categories
      && (set l | l in t.links && l.0 == env.newId) == {(env.newId, t.categories["tech"])}
  {
    RepeatedNameCollapses(req.categories, "tech");
    CreateThenGet(s, userId, req, env);
    var t := CreateStartHub(s, userId, Some(req), env).store;
    LinksForSingleton(env.newId, "tech", t.categories);
  }

  /** A name given twice is one name. */
  lemma RepeatedNameCollapses(names: seq<string>, n: string)
    requires names == [n, n] && n != []
    ensures NamesFrom(names, 0) == {n}
  {
    assert names[0] == n;
  }

  /** The links for one category that exists are the one link to its id. */
  lemma LinksForSingleton(hub: string, n: string, cats: map<string, int>)
    requires n in cats
    ensures LinksFor(hub, {n}, cats) == {(hub, cats[n])}
  {
    assert (hub, cats[n]) in LinksFor(hub, {n}, cats);
  }

  // ------------------------------------------------------ update, delete

  /** The updated row: the request's six editable fields, everything else
      (id, join date, image, owner) kept. */
  function Updated(row: Row, req: CreateStartHubRequest): Row {
    row.(name := req.name, description := req.description, location := req.location,
         teamSize := req.teamSize, url := req.url, email := req.email)
  }

  /** `UpdateStartHub`: `fault` is a database error other than "no rows". */
  function UpdateStartHub(s: Store, id: string, userId: string, body: Option<CreateStartHubRequest>, fault: bool)
    : (r: Reply)
    ensures body.None? ==> r == Reply(Error(StatusBadRequest, "Invalid request"), s)
    ensures body.Some? && fault ==> r == Reply(Error(StatusInternalServerError, "Could not update starthub"), s)
    ensures body.Some? && !fault && !OwnedBy(s, id, userId) ==>
      r == Reply(Error(StatusForbidden, "Starthub not found or you're not the owner"), s)
    ensures r.store != s ==> OwnedBy(s, id, userId)
    ensures r.response.status == StatusOK <==> body.Some? && !fault && OwnedBy(s, id, userId)
    ensures r.response.status == StatusOK ==>
      && r.store == s.(starthubs := s.starthubs[id := Updated(s.starthubs[id], body.value)])
      && r.response.body == HubBody(View(r.store.starthubs[id]))
    ensures Valid(s) ==> Valid(r.store)
  {
    match body
    case None => Reply(Error(StatusBadRequest, "Invalid request"), s)
    case Some(req) =>
      if fault then Reply(Error(StatusInternalServerError, "Could not update starthub"), s)
      else if !OwnedBy(s, id, userId) then
        Reply(Error(StatusForbidden, "Starthub not found or you're not the owner"), s)
      else
        var row := Updated(s.starthubs[id], req);
        Reply(Response(StatusOK, HubBody(View(row))), s.(starthubs := s.starthubs[id := row]))
  }

  /** What the update answers is what a later get-by-id answers. */
  lemma UpdateThenGet(s: Store, id: string, userId: string, body: Option<CreateStartHubRequest>, fault: bool)
    requires UpdateStartHub(s, id, userId, body, fault).response.status == StatusOK
    ensures var r := UpdateStartHub(s, id, userId, body, fault);
      id != [] ==> GetStartHubByID(r.store, id, false) == r.response
  {
  }

  /** `DeleteStartHub`. The row's links go with it (the link table is taken
      to cascade on the starthub). */
  function DeleteStartHub(s: Store, id: string, userId: string, fault: bool): (r: Reply)
    ensures fault ==> r == Reply(Error(StatusInternalServerError, "Could not delete starthub"), s)
    ensures !fault && !OwnedBy(s, id, userId) ==>
      r == Reply(Error(StatusForbidden, "Starthub not found or you're not the owner"), s)
    ensures r.store != s ==> OwnedBy(s, id, userId)
    ensures r.response.status == StatusOK <==> !fault && OwnedBy(s, id, userId)
    ensures r.response.status == StatusOK ==>
      && r.response.body == MessageBody("Starthub deleted")
      && r.store.starthubs == s.starthubs - {id}
      && r.store.users == s.users && r.store.categories == s.categories
      && (forall l :: l in r.store.links <==> l in s.links && l.0 != id)
    ensures Valid(s) ==> Valid(r.store)
  {
    if fault then Reply(Error(StatusInternalServerError, "Could not delete starthub"), s)
    else if !OwnedBy(s, id, userId) then
      Reply(Error(StatusForbidden, "Starthub not found or you're not the owner"), s)
    else
      var links := set l | l in s.links && l.0 != id;
      Reply(Response(StatusOK, MessageBody("Starthub deleted")),
            s.(starthubs := s.starthubs - {id}, links := links))
  }

  /** A deleted row is gone: a later get-by-id answers 404. */
  lemma DeleteThenGet(s: Store, id: string, userId: string, fault: bool)
    requires DeleteStartHub(s, id, userId, fault).response.status == StatusOK
    ensures id != [] ==>
      GetStartHubByID(DeleteStartHub(s, id, userId, fault).store, id, false)
        == Error(StatusNotFound, "Starthub not found")
  {
  }
}
