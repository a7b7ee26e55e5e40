/** The request, response and record types of the backend
    (backend/internal/models), and the HTTP reply shape every handler and
    middleware produces. Timestamps are whole seconds; a Go `string` is a
    Dafny `string`. */
module Models {

  /** A stored account. `passwordHash` is never part of any response. */
  datatype User = User(id: string, email: string, passwordHash: string, role: string, createdAt: int)

  /** The public view of a user: the account without its password. */
  datatype UserResponse = UserResponse(id: string, email: string, role: string, createdAt: int)

  datatype RegisterUserRequest = RegisterUserRequest(email: string, password: string, role: string)

  datatype LoginRequest = LoginRequest(email: string, password: string)

  datatype CreateStartHubRequest = CreateStartHubRequest(
    name: string,
    description: string,
    location: string,
    teamSize: int,
    url: string,
    email: string,
    categories: seq<string>)

  /** A starthub as the handlers answer it. `imageUrl` is the field the
      route code reads and writes although the Go struct lacks it; an empty
      `categories` is the omitted JSON field. */
  datatype StartHub = StartHub(
    id: string,
    name: string,
    description: string,
    location: string,
    teamSize: int,
    url: string,
    email: string,
    joinDate: int,
    categories: seq<string>,
    imageUrl: string)

  /** The claim set of a bearer token: the custom claims and the registered
      `sub`, `iat` and `exp` claims. */
  datatype JwtClaims = JwtClaims(
    userId: string,
    email: string,
    role: string,
    subject: string,
    issuedAt: int,
    expiresAt: int)

  /** The JSON bodies the backend answers with. */
  datatype Body =
    | ErrorBody(error: string)
    | AuthBody(user: UserResponse, token: string)
    | HubBody(hub: StartHub)
    | HubListBody(hubs: seq<StartHub>)
    | SearchBody(searchTerm: string, found: int, results: seq<StartHub>)
    | MessageBody(message: string)
    | TextBody(text: string)
    | RouteNotFound
    | MethodNotAllowed(allow: seq<string>)

  datatype Response = Response(status: int, body: Body)

  const StatusOK := 200
  const StatusCreated := 201
  const StatusBadRequest := 400
  const StatusUnauthorized := 401
  const StatusForbidden := 403
  const StatusNotFound := 404
  const StatusMethodNotAllowed := 405
  const StatusInternalServerError := 500

  function Error(status: int, message: string): Response {
    Response(status, ErrorBody(message))
  }

  function PublicView(u: User): UserResponse {
    UserResponse(u.id, u.email, u.role, u.createdAt)
  }
}
