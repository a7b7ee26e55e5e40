/** The two request validators that run in front of the sign-up and
    sign-in handlers (backend/internal/middleware/validate_register.go and
    validate_login.go). Each either lets the request through to the next
    handler or answers 400 with the message of the FIRST check that fails.
    The body's JSON decoding is an input: `None` is a body that did not
    parse. */
module Validation {
  import opened Outcomes
  import opened Text
  import opened Email
  import opened Models

  /** The enforced minimum, in bytes. The `min=8` tag on the request
      struct is never consulted. */
  const MinPasswordLength := 6

  const ValidRoles: seq<string> := ["starthub", "investor", "donator", "collaborator"]

  /** What a middleware does with a request: hand it on, or answer it. */
  datatype Gate = Next | Halt(response: Response)

  /** `strings.TrimSpace(s) == ""` */
  predicate IsBlank(s: string)
    ensures IsBlank(s) <==> AllSpace(s)
  {
    TrimSpaceEmptyIff(s);
    TrimSpace(s) == []
  }

  /** The registrations that get through: every check passes. */
  ghost predicate AcceptableRegistration(r: RegisterUserRequest) {
    && !AllSpace(r.email)
    && !AllSpace(r.role)
    && MatchesEmailPattern(r.email)
    && !AllSpace(r.password)
    && ByteLen(r.password) >= MinPasswordLength
    && r.role in ValidRoles
  }

  /** A well-formed address starts with a local character, never a space. */
  lemma PatternIsNotBlank(s: string)
    requires MatchesEmailPattern(s)
    ensures !AllSpace(s)
  {
    var at, dot :| SplitsAt(s, at, dot);
    assert IsLocalChar(s[0]);
  }

  /** Every listed role starts with a letter. */
  lemma RoleIsNotBlank(role: string)
    requires role in ValidRoles
    ensures !AllSpace(role)
  {
    assert role[0] in "sidc";
  }

  /** Two of the blank checks are subsumed: a well-formed address is never
      blank and neither is a listed role, so only the password's blank check
      rejects anything the later checks would let through. */
  lemma AcceptableRegistrationSimplified(r: RegisterUserRequest)
    ensures AcceptableRegistration(r) <==>
      MatchesEmailPattern(r.email) && !AllSpace(r.password)
      && ByteLen(r.password) >= MinPasswordLength && r.role in ValidRoles
  {
    if MatchesEmailPattern(r.email) {
      PatternIsNotBlank(r.email);
    }
    if r.role in ValidRoles {
      RoleIsNotBlank(r.role);
    }
  }

  function ValidateRegister(body: Option<RegisterUserRequest>): (g: Gate)
    ensures body.None? ==> g == Halt(Error(StatusBadRequest, "Invalid request data"))
    ensures g.Halt? ==> g.response.status == StatusBadRequest && g.response.body.ErrorBody?
    ensures g.Next? <==> body.Some? && AcceptableRegistration(body.value)
    ensures body.Some? ==> var r := body.value;
      && (AllSpace(r.email) ==> g == Halt(Error(StatusBadRequest, "Email is required")))
      && (!AllSpace(r.email) && AllSpace(r.password) ==>
            g == Halt(Error(StatusBadRequest, "Password is required")))
      && (!AllSpace(r.email) && !AllSpace(r.password) && AllSpace(r.role) ==>
            g == Halt(Error(StatusBadRequest, "Role is required")))
      && (!AllSpace(r.email) && !AllSpace(r.password) && !AllSpace(r.role)
          && !MatchesEmailPattern(r.email) ==>
            g == Halt(Error(StatusBadRequest, "Invalid email format")))
      && (!AllSpace(r.password) && !AllSpace(r.role) && MatchesEmailPattern(r.email)
          && ByteLen(r.password) < MinPasswordLength ==>
            g == Halt(Error(StatusBadRequest, "Password must be at least 6 characters long")))
      && (!AllSpace(r.password) && !AllSpace(r.role) && MatchesEmailPattern(r.email)
          && ByteLen(r.password) >= MinPasswordLength && r.role !in ValidRoles ==>
            g == Halt(Error(StatusBadRequest,
                            "Role must be either 'starthub', 'investor', 'donator' or 'collaborator'")))
  {
    match body
    case None => Halt(Error(StatusBadRequest, "Invalid request data"))
    case Some(r) =>
      if IsBlank(r.email) then Halt(Error(StatusBadRequest, "Email is required"))
      else if IsBlank(r.password) then Halt(Error(StatusBadRequest, "Password is required"))
      else if IsBlank(r.role) then Halt(Error(StatusBadRequest, "Role is required"))
      else if !IsValidEmail(r.email) then Halt(Error(StatusBadRequest, "Invalid email format"))
      else if ByteLen(r.password) < MinPasswordLength then
        Halt(Error(StatusBadRequest, "Password must be at least 6 characters long"))
      else if r.role !in ValidRoles then
        Halt(Error(StatusBadRequest,
                   "Role must be either 'starthub', 'investor', 'donator' or 'collaborator'"))
      else Next
  }

  /** The sign-ins that get through: any well-formed address with a
      non-blank password; there is no length or role check. */
  ghost predicate AcceptableLogin(r: LoginRequest) {
    !AllSpace(r.email) && MatchesEmailPattern(r.email) && !AllSpace(r.password)
  }

  function ValidateLogin(body: Option<LoginRequest>): (g: Gate)
    ensures body.None? ==> g == Halt(Error(StatusBadRequest, "Invalid request data"))
    ensures g.Halt? ==> g.response.status == StatusBadRequest && g.response.body.ErrorBody?
    ensures g.Next? <==> body.Some? && AcceptableLogin(body.value)
    ensures body.Some? ==> var r := body.value;
      && (AllSpace(r.email) ==> g == Halt(Error(StatusBadRequest, "Email is required")))
      && (!AllSpace(r.email) && AllSpace(r.password) ==>
            g == Halt(Error(StatusBadRequest, "Password is required")))
      && (!AllSpace(r.email) && !AllSpace(r.password) && !MatchesEmailPattern(r.email) ==>
            g == Halt(Error(StatusBadRequest, "Invalid email format")))
  {
    match body
    case None => Halt(Error(StatusBadRequest, "Invalid request data"))
    case Some(r) =>
      if IsBlank(r.email) then Halt(Error(StatusBadRequest, "Email is required"))
      else if IsBlank(r.password) then Halt(Error(StatusBadRequest, "Password is required"))
      else if !IsValidEmail(r.email) then Halt(Error(StatusBadRequest, "Invalid email format"))
      else Next
  }

  /** The sign-in rules are a relaxation of the sign-up rules: credentials
      that pass registration also pass login. */
  lemma RegistrationPassesLogin(r: RegisterUserRequest)
    requires ValidateRegister(Some(r)).Next?
    ensures ValidateLogin(Some(LoginRequest(r.email, r.password))).Next?
  {
  }

  lemma AcceptedWhenAcceptable(r: RegisterUserRequest)
    requires AcceptableRegistration(r)
    ensures ValidateRegister(Some(r)) == Next
  {
  }

  /** "a@b.com" is a well-formed address. */
  lemma ExampleAddressMatches(e: string)
    requires e == "a@b.com"
    ensures MatchesEmailPattern(e) && !AllSpace(e)
  {
    assert SplitsAt(e, 1, 3);
    PatternIsNotBlank(e);
  }

  /** An ASCII password starting with a non-space is not blank and its
      byte length is its length. */
  lemma AsciiPasswordFacts(p: string)
    requires p != [] && !IsSpace(p[0])
    requires forall i :: 0 <= i < |p| ==> p[i] as int < 0x80
    ensures !AllSpace(p) && ByteLen(p) == |p|
  {
  }

  /** The worked example of a well-formed sign-up. */
  lemma SignUpExampleAccepted(r: RegisterUserRequest)
    requires r == RegisterUserRequest("a@b.com", "secret1", "investor")
    ensures ValidateRegister(Some(r)) == Next
  {
    ExampleAddressMatches(r.email);
    AsciiPasswordFacts(r.password);
    assert r.role == ValidRoles[1];
    RoleIsNotBlank(r.role);
    AcceptedWhenAcceptable(r);
  }

  /** The length counts UTF-8 bytes: three two-byte characters are enough. */
  lemma PasswordLengthCountsBytes(r: RegisterUserRequest)
    requires r == RegisterUserRequest("a@b.com", "\U{00E9}\U{00E9}\U{00E9}", "donator")
    ensures |r.password| < MinPasswordLength
    ensures ValidateRegister(Some(r)) == Next
  {
    ExampleAddressMatches(r.email);
    var p := r.password;
    assert ByteLen(p[2..]) == 2;
    assert ByteLen(p[1..]) == 4;
    assert ByteLen(p) == 6;
    assert !IsSpace(p[0]);
    assert r.role == ValidRoles[2];
    RoleIsNotBlank(r.role);
    AcceptedWhenAcceptable(r);
  }

  /** The address is matched untrimmed: a leading space passes the blank
      check and then fails the format check. */
  lemma EmailIsNotTrimmed(r: LoginRequest)
    requires r == LoginRequest(" a@b.com", "x")
    ensures ValidateLogin(Some(r)) == Halt(Error(StatusBadRequest, "Invalid email format"))
  {
    assert !IsSpace(r.email[1]) && !IsSpace(r.password[0]);
    assert !IsLocalChar(r.email[0]);
  }
}
