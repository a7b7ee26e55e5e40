# startHub backend in Dafny

This project models the HTTP backend of startHub, a directory of start-up
hubs. The backend exposes these routes:

- `POST /sign-up` and `POST /sign-in`, each behind a request validator;
- `POST /api/starthubs`, behind a bearer-token check;
- the public reads `GET /starthubs`, `GET /starthubs/search?name=` and `GET /starthubs/:id`.

Update and delete handlers exist but are not mounted.

The model holds:

- the two validators;
- the bearer-token middleware;
- token issue and validation;
- the account handlers;
- the starthub handlers, including the transactional create with its category upserts and links;
- the route table, dispatched the way Fiber dispatches it, including its 405 answer with the allowed methods when only another method's route matches the path.

The database is one immutable `Store` value: users keyed by email, starthub rows keyed by id, categories as name→id, and links as pairs. Every handler that can write is a pure function from a store and a request to a `Reply`, which is a response plus the new store. The read-only handlers (`UserRoutes.LoginUser`, `StartHubRoutes.GetAllStarthubs`, `StartHubRoutes.GetStartHubsBySearchTerm` and `StartHubRoutes.GetStartHubByID`) return a response only.

These enter as function-valued parameters:

- bcrypt hashing and comparison;
- HS256 signing and parsing;
- the Pexels image search.

These enter as plain values, one of each per request:

- the ids and timestamps the database supplies;
- the clock readings the process supplies;
- database failures that do not follow from the store.

`Jwt.SignerMatchesVerifier` states the library contract the round-trip proofs assume. `UserRoutes.HashMatches` states bcrypt's promise.

Files:

- `outcomes.dfy`: `Option` and `Result`.
- `text.dfy`: Go's `strings.TrimSpace`, ASCII `ToLower`, `strings.Split` and byte-counting `len`.
- `email.dfy`: the address regular expression and a matcher proved equal to it.
- `models.dfy`: records and responses.
- `validation.dfy`: the validators.
- `jwt.dfy`: tokens.
- `auth_middleware.dfy`: the bearer-token check.
- `database.dfy`: the store and its integrity predicate `Valid`.
- `images.dfy`: image lookup.
- `starthub_routes.dfy`: the starthub handlers.
- `users.dfy`: the account handlers.
- `router.dfy`: the route table and end-to-end properties.

## Model

| member | source | states |
|---|---|---|
| Text.IsSpace | backend/internal/middleware/validate_register.go:23 | no contract of its own: the white-space set of Go's `unicode.IsSpace`, which `strings.TrimSpace` strips; the trim members state what it means for a field |
| Text.TrimLeft | backend/internal/middleware/validate_register.go:23 | leading spaces dropped: the result is a suffix, everything dropped is a space, and the result does not start with one |
| Text.TrimRight | backend/internal/middleware/validate_register.go:23 | the mirror image of TrimLeft for trailing spaces |
| Text.TrimSpace | backend/internal/middleware/validate_register.go:23 | the input is some spaces, then the result, then some spaces; the result neither starts nor ends with a Unicode space |
| Text.TrimLeftRightPadding | backend/internal/middleware/validate_register.go:23 | the trim is the part after the dropped leading spaces, followed only by spaces |
| Text.TrimSpaceEmptyIff | backend/internal/middleware/validate_register.go:23-37 | a field trims to "" exactly when every character is a space |
| Text.TrimSpaceOfTrimmed | backend/internal/routes/starthub_route.go:28 | a string that neither starts nor ends with a space is its own trim |
| Text.TrimSpaceIdempotent | backend/internal/routes/starthub_route.go:28 | trimming twice is trimming once |
| Text.ToLower | backend/internal/routes/starthub_route.go:28 | same length, and each character lowered on its own |
| Text.LowerCharProperties | backend/internal/routes/starthub_route.go:28 | a lowered character is no ASCII capital, is a space iff the original was, and lowers to itself |
| Text.ToLowerProperties | backend/internal/routes/starthub_route.go:28 | no ASCII capital is left, spaces stay where they were, and lowering is idempotent |
| Text.Split | backend/internal/middleware/auth.go:20 | one more part than separators; no part contains the separator; joining the parts gives the input back |
| Text.SplitNoSeparator | backend/internal/middleware/auth.go:20-21 | a string without a separator splits into itself alone |
| Text.SplitAtFirst | backend/internal/middleware/auth.go:20-21 | the part before the first separator is split off unchanged |
| Text.ByteLen | backend/internal/middleware/validate_register.go:48 | `len` counts UTF-8 bytes: at least the character count, at most four times it, and equal to it for ASCII |
| Email.IndexOf | backend/internal/middleware/validate_register.go:40-41 | the first position of a character, or -1 when it is absent |
| Email.LastIndexOf | backend/internal/middleware/validate_register.go:40-41 | the last position of a character, or -1 when it is absent |
| Email.IsValidEmail | backend/internal/middleware/validate_register.go:40-41 | the matcher accepts exactly the strings in the language of the address pattern (local '@' domain '.' two or more letters) |
| Email.MatcherAgreesWithPattern | backend/internal/middleware/validate_register.go:40 | a split of the pattern, if any exists, is at the first '@' and the last '.' |
| Database.EmptyStoreIsValid | backend/internal/routes/starthub_route.go:294-371 | the integrity predicate can be met: the empty database is well-formed |
| Database.OwnerIsOneAccount | backend/internal/routes/starthub_route.go:294-312 | in a well-formed store a row's owner id names exactly one stored account |
| Validation.IsBlank | backend/internal/middleware/validate_register.go:23-37 | the blank check holds exactly for all-space fields |
| Validation.PatternIsNotBlank | backend/internal/middleware/validate_register.go:23-45 | an address matching the pattern is never blank |
| Validation.RoleIsNotBlank | backend/internal/middleware/validate_register.go:33-62 | a listed role is never blank |
| Validation.AcceptableRegistrationSimplified | backend/internal/middleware/validate_register.go:22-67 | acceptance reduces to: pattern, non-blank password, at least 6 bytes, listed role |
| Validation.ValidateRegister | backend/internal/middleware/validate_register.go:12-71 | an unparsable body gives 400 "Invalid request data"; otherwise each check in order answers 400 with its exact message; the request is handed on iff every check passes |
| Validation.AcceptedWhenAcceptable | backend/internal/middleware/validate_register.go:12-71 | a registration meeting every rule is handed on |
| Validation.ExampleAddressMatches | backend/internal/middleware/validate_register.go:23-45 | "a@b.com" matches the address pattern and is not blank |
| Validation.AsciiPasswordFacts | backend/internal/middleware/validate_register.go:27-52 | an ASCII password that does not start with a space is not blank, and its byte length is its character count |
| Validation.ValidateLogin | backend/internal/middleware/validate_login.go:11-42 | the same for sign-in: blank email, blank password, then the pattern; it is handed on iff all three pass |
| Validation.RegistrationPassesLogin | backend/internal/middleware/validate_login.go:21-39 | credentials that pass sign-up validation pass sign-in validation |
| Validation.SignUpExampleAccepted | backend/internal/middleware/validate_register.go:40-67 | {a@b.com, secret1, investor} is handed on |
| Validation.PasswordLengthCountsBytes | backend/internal/middleware/validate_register.go:48-52 | three two-byte characters meet the six-character minimum |
| Validation.EmailIsNotTrimmed | backend/internal/middleware/validate_login.go:22-39 | a leading space passes the blank check but fails the pattern |
| Jwt.IssueClaims | backend/pkg/utils/jwt.go:17-26 | the claim set: user id and subject are the user's id, email and role are copied, issued now, expiring 24 h after issue |
| Jwt.GenerateJWT | backend/pkg/utils/jwt.go:16-29 | the token is the signature of the user's claim set |
| Jwt.TokenIgnoresSecrets | backend/pkg/utils/jwt.go:17-26 | two users with the same id, email and role get the same token; the password hash never enters it |
| Jwt.ValidateJWT | backend/pkg/utils/jwt.go:31-45 | claims are returned iff the token parsed, the claims have the expected type, and the token is valid; parse errors pass through; anything else is ErrInvalidKey |
| Jwt.IssuedTokenRoundTrip | backend/pkg/utils/jwt.go:13-45 | an issued token validates exactly while less than 24 h old, yielding the user's id, email and role; after that it is Expired |
| AuthMiddleware.BearerToken | backend/internal/middleware/auth.go:20-27 | a token is extracted only from "Bearer " plus a token with no space |
| AuthMiddleware.BearerTokenIff | backend/internal/middleware/auth.go:20-25 | the header check holds iff the header is "Bearer", one space, and a token without spaces |
| AuthMiddleware.AcceptedHeaderShape | backend/internal/middleware/auth.go:20-25 | a header that passes the format check starts with "Bearer " and holds no further space |
| AuthMiddleware.RequireAuth | backend/internal/middleware/auth.go:10-44 | the three 401 messages in order; authorised iff the format check and token validation pass; the locals are the token's id, email and role |
| AuthMiddleware.MalformedHeaderNeverValidated | backend/internal/middleware/auth.go:13-25 | an empty or malformed header is refused without consulting the token parser |
| AuthMiddleware.OnlyTheTokenIsValidated | backend/internal/middleware/auth.go:27-31 | only the second header part reaches the parser |
| AuthMiddleware.IssuedTokenAuthorizes | backend/internal/middleware/auth.go:27-43 | a fresh issued token authorises with the user's identity; an expired one gives "Invalid or expired token" |
| AuthMiddleware.MalformedHeaderExamples | backend/internal/middleware/auth.go:20-25 | "bearer t", "Bearer  t" and "Bearert" are refused by the format check |
| AuthMiddleware.EmptyTokenPassesFormat | backend/internal/middleware/auth.go:20-31 | "Bearer " passes the format check and hands the empty token to validation |
| Images.SearchTerm | backend/internal/routes/starthub_route.go:27-31 | the term is the trimmed, lowered category, or "startup" when the category is all spaces; it is never empty |
| Images.NormalTermIsFixed | backend/internal/routes/starthub_route.go:27-31 | a normalised term normalises to itself |
| Images.SearchTermIsNormalised | backend/internal/routes/starthub_route.go:27-31 | every term sent has no surrounding space and no ASCII capital, and normalising it again changes nothing |
| Images.ImageFromPexels | backend/internal/routes/starthub_route.go:19-86 | without an API key the result is ""; otherwise it is the service's answer, on that call, for the normalised term |
| Images.ResolveImage | backend/internal/routes/starthub_route.go:273-281 | no contract of its own: the image a new row is given; its cases are stated by Images.ResolveImageCases |
| Images.ResolveImageCases | backend/internal/routes/starthub_route.go:273-281 | the first category's image when that lookup ran and found one, else the fallback call's "startup" image; empty iff there is no key, or the first lookup did not run or came back empty and the fallback call came back empty too |
| Images.FallbackIsSeparateCall | backend/internal/routes/starthub_route.go:273-281 | a first category "Startup" that finds nothing still gets the image the separate fallback call finds |
| StartHubRoutes.GetAllStarthubs | backend/internal/routes/starthub_route.go:89-137 | 200 with the rows, or the two distinct 500 messages for a query failure and a scan failure |
| StartHubRoutes.SearchPattern | backend/internal/routes/starthub_route.go:202 | the term wrapped in one '%' on each side |
| StartHubRoutes.GetStartHubsBySearchTerm | backend/internal/routes/starthub_route.go:190-244 | an empty term gives 400; otherwise 200 with the term, the count and the rows, or the two 500 messages |
| StartHubRoutes.SearchOutcomes | backend/internal/routes/starthub_route.go:192-242 | a search never answers 404; `found` equals the number of results; no match is a 200 with 0; only the wrapped term reaches the query |
| StartHubRoutes.GetStartHubByID | backend/internal/routes/starthub_route.go:140-188 | 400 "ID is required" iff the id is empty, 500 "Could not get starthub from database" iff the database fails, 404 "Starthub not found" iff the row is missing, otherwise 200 with the row's nine columns |
| StartHubRoutes.UpsertCategory | backend/internal/routes/starthub_route.go:339-346 | a known name returns its id and changes nothing; a new name takes the next id |
| StartHubRoutes.UpsertKeepsValid | backend/internal/routes/starthub_route.go:339-346 | an upsert keeps the store well-formed |
| StartHubRoutes.NamesFromStep | backend/internal/routes/starthub_route.go:332-335 | the names from a position on are that position's name, if non-empty, plus the rest |
| StartHubRoutes.RepeatedNameCollapses | backend/internal/routes/starthub_route.go:332-346 | a category given twice is one name |
| StartHubRoutes.LinkedStep | backend/internal/routes/starthub_route.go:337-367 | one upsert-and-link step composes with the rest of the loop |
| StartHubRoutes.LinkCategories | backend/internal/routes/starthub_route.go:331-368 | the loop skips empty names and fails iff a step at a non-empty name fails, with that step's message; on success each distinct name has a category, old ids are kept, and the links added are exactly one per name |
| StartHubRoutes.LinkStepKeepsValid | backend/internal/routes/starthub_route.go:337-367 | one upsert-and-link step to an existing row keeps the store well-formed |
| StartHubRoutes.LinkCategoriesKeepsValid | backend/internal/routes/starthub_route.go:331-368 | the whole loop, linking to an existing row, keeps the store well-formed |
| StartHubRoutes.InsertThenLinkKeepsValid | backend/internal/routes/starthub_route.go:294-368 | inserting the row and then running the loop keeps the store well-formed |
| StartHubRoutes.RunCreateTransaction | backend/internal/routes/starthub_route.go:283-381 | the transaction succeeds iff no step fails; the insert fails when the id is taken or the owner is no stored user; each failure has its message; success inserts the row and then runs the loop, and keeps a well-formed store well-formed |
| StartHubRoutes.CreateStartHub | backend/internal/routes/starthub_route.go:246-386 | the 400 checks in order; 201 iff the transaction commits, which needs the caller to be a stored user; every other answer leaves the store as it was; a 201 returns the request's fields, the resolved image, the returned id and join date, and the request's categories |
| StartHubRoutes.CreateKeepsRecords | backend/internal/routes/starthub_route.go:294-371 | a create, committed or not, keeps every existing row, account and link |
| StartHubRoutes.CreateFailureMessages | backend/internal/routes/starthub_route.go:284-381 | each failing step gives its own 500 message, and the store is unchanged |
| StartHubRoutes.SecondLinkFailureRollsBack | backend/internal/routes/starthub_route.go:361-367 | a link failure on the second of two categories leaves nothing behind |
| StartHubRoutes.SkippedPositionsCannotFail | backend/internal/routes/starthub_route.go:332-335 | a fault at a skipped empty name, or past the end, never fires |
| StartHubRoutes.CreateThenGet | backend/internal/routes/starthub_route.go:294-371 | the new row is owned by the caller; get-by-id answers the created fields without categories; the new row's links are one per distinct non-empty name |
| StartHubRoutes.DuplicateCategoryLinkedOnce | backend/internal/routes/starthub_route.go:337-367 | ["tech","tech"] yields one category and exactly one link |
| StartHubRoutes.LinksForSingleton | backend/internal/routes/starthub_route.go:361-367 | linking one existing category gives exactly the one link to its id |
| StartHubRoutes.UpdateStartHub | backend/internal/routes/starthub_route.go:388-449 | 400 for an unparsable body, 500 on a database error, 403 unless the caller owns the row; otherwise the six fields are replaced and the updated row is returned |
| StartHubRoutes.UpdateThenGet | backend/internal/routes/starthub_route.go:400-447 | a later get-by-id answers what the update answered |
| StartHubRoutes.DeleteStartHub | backend/internal/routes/starthub_route.go:451-484 | 500 on a database error; 403 unless the caller owns the row; otherwise the row and its links are removed and nothing else changes |
| StartHubRoutes.DeleteThenGet | backend/internal/routes/starthub_route.go:457-482 | a deleted row is then 404 |
| UserRoutes.RegisterUser | backend/internal/routes/user_route.go:13-73 | the four error answers with their exact messages, the insert failing when the email or the issued id is taken; the store changes iff the insert runs, and then only by the new account holding the hash; existing accounts are kept; the token-failure 500 keeps the new account |
| UserRoutes.AddUserKeepsValid | backend/internal/routes/user_route.go:37-51 | adding an account under a new email and a new id keeps the store well-formed: ids stay distinct and every row's owner is still a stored user |
| UserRoutes.LoginUser | backend/internal/routes/auth.go:13-78 | 401 "Invalid email or password" iff the email is unknown, the lookup fails, or the password does not match; 200 with the public user and token; 500 when signing fails |
| UserRoutes.FailedSignInsLookAlike | backend/internal/routes/auth.go:38-54 | an unknown email and a wrong password get identical answers |
| UserRoutes.RegisterThenLogin | backend/internal/routes/user_route.go:24-51 | after registering, the same credentials sign in to the same public user whenever a token can be signed |
| UserRoutes.EmailTakenOnce | backend/internal/routes/user_route.go:45-51 | a second sign-up with a taken email is a 500 and overwrites nothing |
| UserRoutes.SignUpTokenCarriesRequest | backend/internal/routes/user_route.go:55-71 | the sign-up token validates to the request's email and role and the new id |
| Router.TrimTrailingSlashes | backend/internal/app/router.go:27-29 | all trailing '/' are removed, and only those |
| Router.DetectionPath | backend/internal/app/router.go:10-30 | the path routes match against: lowered, and without trailing slashes unless it is one character |
| Router.IdParam | backend/internal/app/router.go:29 | the `:id` value is the non-empty raw segment that the lowered path matched |
| Router.Route | backend/internal/app/router.go:10-30 | the entry a method and a detected path reach, in registration order; get-by-id is reached only by an id path. Router.RouteTable and Router.RouteFollowsRegistration state its table |
| Router.Serve | backend/internal/app/router.go:10-30 | no contract of its own: the whole server, one request against one store; its behaviour is stated by the Router lemmas |
| Router.RegisteredAmong | backend/internal/app/router.go:10-30 | the methods of a list that have a route registered for the path, and only those, keeping the list's order |
| Router.MethodOrderIsComplete | backend/internal/app/router.go:10-30 | every modelled method appears in Fiber's method order |
| Router.MethodOrderIsOrdered | backend/internal/app/router.go:10-30 | Fiber's method order lists each method once, by rank |
| Router.AllowedMethods | backend/internal/app/router.go:10-30 | exactly the methods that have a route registered for the path, each once, in Fiber's method order |
| Router.Names | backend/internal/app/router.go:10-30 | the Allow header values: one name per method, position by position, naming exactly the listed methods |
| Router.Unmatched | backend/internal/app/router.go:10-30 | 405 iff some method has a route for the path, and then the Allow list names exactly the registered methods, in the order of Router.AllowedMethods; otherwise 404 |
| Router.RouteFollowsRegistration | backend/internal/app/router.go:10-30 | outside "/api" a request is unrouted iff its method has no route for the path; under "/api" only POST "/api/starthubs" is registered |
| Router.UnroutedMethodAnswered | backend/internal/app/router.go:10-30 | a request whose method has no route, and that passes the /api check if under it, gets Fiber's 404 or 405 and no write |
| Router.SignUpIsPostOnly | backend/internal/app/router.go:12 | only POST is registered for "/sign-up" |
| Router.SignUpUnmatched | backend/internal/app/router.go:12 | the fallthrough answer on "/sign-up" is 405 allowing only POST |
| Router.SignUpOtherMethodIs405 | backend/internal/app/router.go:12 | GET, PUT or any other method but POST on "/sign-up" that reaches routing is a 405 whose Allow list is POST, with no write (a CORS preflight OPTIONS is answered before routing) |
| Router.ListingIsGetOnly | backend/internal/app/router.go:27 | only GET and HEAD are registered for "/starthubs" |
| Router.ListingUnmatched | backend/internal/app/router.go:27 | the fallthrough answer on "/starthubs" is 405 allowing GET and HEAD |
| Router.ListingPostIs405 | backend/internal/app/router.go:27 | POST or any other method but GET and HEAD on "/starthubs" that reaches routing is a 405 whose Allow list is GET and HEAD, with no write (a CORS preflight OPTIONS is answered before routing) |
| Router.ServeApi | backend/internal/app/router.go:16-19 | the group answers with the auth middleware's refusal, and writes only through an authorised POST to "/api/starthubs"; Router.UnroutedMethodAnswered states its answer to any other authorised request |
| Router.RouteTable | backend/internal/app/router.go:10-30 | the entry each method and path reaches: "/api" catches every method, and search is tried before `:id` |
| Router.OnlyTwoRoutesWrite | backend/internal/app/router.go:10-30 | only a validated sign-up that reaches its insert, or an authorised create that commits, writes |
| Router.InvalidSignUpNeverReachesStore | backend/internal/app/router.go:12 | a rejected sign-up is the validator's 400 and leaves the store unchanged |
| Router.SignInValidatedFirst | backend/internal/app/router.go:13 | a rejected sign-in is the validator's 400 whatever the store |
| Router.ApiRequiresAuth | backend/internal/app/router.go:16 | everything under /api without an acceptable token is the auth middleware's 401, with no write |
| Router.ReadsDoNotWrite | backend/internal/app/router.go:27-29 | GET and HEAD never write |
| Router.ExistingRecordsAreKept | backend/internal/app/router.go:19-24 | with update and delete unmounted, no request changes or removes an existing row, account or link |
| Router.SignUpKeepsRecords | backend/internal/app/router.go:12 | sign-up changes or removes no existing row, account or link |
| Router.ApiKeepsRecords | backend/internal/app/router.go:16-19 | the /api group changes or removes no existing row, account or link |
| Router.OtherRoutesDoNotWrite | backend/internal/app/router.go:10-30 | every entry but sign-up and the /api group leaves the store as it was |
| Router.ServeKeepsValid | backend/internal/app/router.go:10-30 | every request keeps the store well-formed |
| Router.SearchShadowsId | backend/internal/app/router.go:28-29 | "/starthubs/search" goes to search, although it also has the shape of `:id` |
| Router.SearchPathHasIdShape | backend/internal/app/router.go:28-29 | "/starthubs/search" has the shape of an id path |
| Router.IdIsNeverMissing | backend/internal/app/router.go:29 | get-by-id is reached with a non-empty id, so it never answers "ID is required" |
| Router.TrailingSlashIgnored | backend/internal/app/router.go:27-29 | a lower-case path is detected as itself with or without one trailing slash |
| Router.LowerWithoutCapitals | backend/internal/app/router.go:27-29 | a path without ASCII capitals is unchanged by lowering |
| Router.IdPathDetected | backend/internal/app/router.go:29 | "/starthubs/<id>/" is detected as the id route, and `:id` is the segment between prefix and slash |
| Router.IdRouteExample | backend/internal/app/router.go:29 | "/starthubs/<id>/" reaches get-by-id with that id |
| Router.ServeAccountRoutes | backend/internal/app/router.go:12-13 | the validator runs first, and the handler runs only when it hands on |
| Router.SignUpReachesInsert | backend/internal/app/router.go:12 | a validated sign-up reaches the register handler |
| Router.SignInReachesLogin | backend/internal/app/router.go:13 | sign-up-valid credentials reach the login handler |
| Router.SignUpThenSignIn | backend/internal/app/router.go:12-13 | end to end, a stored sign-up followed by a sign-in with the same credentials answers 200 with the new user whenever a token can be signed |
| Router.IssuedTokenReachesCreate | backend/internal/app/router.go:16-19 | an issued bearer token reaches create with its user as owner while fresh, and gets 401 once expired |

## Left out

- Transport, JSON and the rest of the process:
  - HTTP transport and JSON encoding are not modelled. A body's decoding is an input (`None` for a body that does not parse).
  - The database issues the user id; the model takes it as an input, and an insert under an id already stored fails like a primary-key violation.
  - The two identical parses in a validator and its handler share one decoded value.
  - Go's `null` for an empty result slice is the empty sequence.
  - Logging is not modelled.
  - The CORS and logger middleware of `backend/internal/app/app.go` are not modelled; the model covers requests the CORS middleware hands on. Its preflight answers are not modelled.
  - `backend/cmd/main.go`, `backend/internal/database/db.go` and `backend/internal/database/migrate.go` are not part of this model: process start-up, the connection pool and the schema.
  - Without the schema, `starthubs.created_by` is taken to reference `users(id)`: an insert whose owner is no stored user fails like any other insert failure, and `Database.Valid` requires every row's owner to be a stored user.
- External services:
  - bcrypt, HS256, the Pexels HTTP exchange and the database's id and timestamp generation are not modelled. They are inputs, since they are library code or are nondeterministic. Each of the two image lookups a create may make gets its own answer.
  - Their assumed contracts are `Jwt.SignerMatchesVerifier` and `UserRoutes.HashMatches`.
  - One clock reading stands for the two `time.Now` calls in `GenerateJWT`.
- SQL:
  - SQL semantics are not modelled: `ILIKE` matching, row order, and the rows the listing and search return are inputs.
  - An id that is not a UUID makes PostgreSQL fail the query. That appears as the get-by-id fault flag.
- The store:
  - Concurrency between requests is not modelled. Each request runs alone on one store.
  - On rollback the whole store, including the category-id counter, is restored. PostgreSQL sequences do not roll back, so real ids may skip; ids are only compared for equality.
  - Deleting a row also removes its links. The model assumes the link table cascades on starthub deletion, since the schema is not part of the model.
- Text:
  - Text.ToLower: lowers ASCII letters only, whereas Go's `strings.ToLower` maps all Unicode letters. Non-ASCII categories reach the image search unlowered.
  - Strings are sequences of Unicode scalar values. Invalid UTF-8 in a request is not modelled.
- Validation and types:
  - The `min=8` and `validate` struct tags are never consulted by the code, so the model ignores them as well. The enforced minimum is 6 bytes.
  - The Go `StartHub` struct has no `ImageURL` field, although the route code reads and writes one. The model gives the record an `imageUrl` field.
  - The struct's `CollaboratingStarthubs` and `ExternalCollaborators` fields are not modelled. No handler sets them, so `omitempty` always leaves them out of the JSON.
  - `TeamSize` is Go's 64-bit `int`; values outside that range do not decode, which the body's `None` covers.
- Router:
  - Fiber's router internals are modelled only as far as these routes need them. Its default configuration is used: case-insensitive and non-strict routing.
  - A 404 body is `RouteNotFound` rather than Fiber's "Cannot GET …" text.
  - A 405 body is `MethodNotAllowed(allow)`, which carries the values of Fiber's `Allow` header in Fiber's method order. Fiber's "Method Not Allowed" text and the header itself are not modelled.
  - The CONNECT and TRACE methods are not modelled. No route is registered for them, so they would only ever reach the 404 or 405 fallthrough.
  - `Router.Serve` carries no contract of its own. Its behaviour is stated by the lemmas in `router.dfy`.
- Search:
  - Only the empty term is refused with 400; a term of spaces is searched for (`StartHubRoutes.SearchOutcomes`).
