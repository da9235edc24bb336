/** The login/refresh request handler: it resolves a user either from a
    presented refresh token or from an email/password pair, mints a fresh access
    token bound to that user's id and password hash, and answers either
    `Ok(accessToken, refreshToken)` or a uniform, detail-free `Forbidden`.

    The token codec, the user store and the presence validator are
    collaborators whose code is not part of this model; they are passed in as
    uninterpreted functions. */
module RefreshHandler {
  import opened Wrappers
  import opened Users

  /** An opaque signed token string produced by the token codec. */
  type Token = string

  /** The request body: every field may be missing. */
  datatype Request = Request(email: Option<string>, password: Option<string>, refreshToken: Option<string>)

  /** What the token codec reads out of a refresh token: the user id claim and
      the password fingerprint claim (either may be missing). */
  datatype RefreshDetails = RefreshDetails(userId: Option<Id>, fingerprint: Option<string>)

  /** The handler's collaborators.
      - `decodeRefresh`: verifies and decodes a refresh token; `None` stands for
        a rejected promise (malformed, tampered or expired token) and for a
        promise that resolves to null or undefined.
      - `findById`, `findByCredentials`: the two read-only user-store lookups;
        `None` is "no such user".
      - `mint`: issues an access token for `(user id, password hash)`; `None`
        stands for a rejected promise.
      - `isPresent`: the presence validator applied to a supplied email or
        password; a missing field is never present. */
  datatype Collaborators = Collaborators(
    decodeRefresh: string -> Option<RefreshDetails>,
    findById: Id -> Option<User>,
    findByCredentials: (string, string) -> Option<User>,
    mint: (Id, PasswordHash) -> Option<Token>,
    isPresent: string -> bool)

  /** Why a request is rejected. The reason is internal: every one of them is
      answered with the same `Forbidden`. */
  datatype AuthError =
    | ParamMissing        // email or password not supplied on the credential path
    | InvalidToken        // the refresh token did not decode
    | InvalidAuthValues   // no user id in the token, or no user found
    | AccountNotActive    // the token's user exists but is not ACTIVE
    | EncodingError       // the access token could not be minted

  datatype Outcome = Ok(accessToken: Token, refreshToken: Option<string>) | Forbidden

  /** JavaScript truthiness of an optional string: present and non-empty. */
  predicate Truthy(s: Option<string>) {
    s.Some? && |s.value| > 0
  }

  /** The presence check applied to email and password. */
  predicate Present(c: Collaborators, s: Option<string>) {
    s.Some? && c.isPresent(s.value)
  }

  /** Declarative description of the user a request identifies: on the refresh
      path the ACTIVE user named by the token's user id claim, on the credential
      path the user the store matches to the supplied email and password. */
  predicate Identifies(c: Collaborators, req: Request, u: User) {
    if Truthy(req.refreshToken) then
      var details := c.decodeRefresh(req.refreshToken.value);
      && details.Some?
      && Truthy(details.value.userId)
      && c.findById(details.value.userId.value) == Some(u)
      && IsActive(u)
    else
      && Present(c, req.email)
      && Present(c, req.password)
      && c.findByCredentials(req.email.value, req.password.value) == Some(u)
  }

  /** Refresh path: decode the token, look the user up by the id claim, and
      reject a user that is not ACTIVE. */
  function ResolveByToken(c: Collaborators, token: string): Result<User, AuthError> {
    var details :- c.decodeRefresh(token).ToResult(InvalidToken);
    if !Truthy(details.userId) then
      Failure(InvalidAuthValues)
    else
      var user :- c.findById(details.userId.value).ToResult(InvalidAuthValues);
      if IsActive(user) then Success(user) else Failure(AccountNotActive)
  }

  /** Credential path: both fields must be present before the store is asked.
      No status check is made on this path. */
  function ResolveByCredentials(c: Collaborators, email: Option<string>, password: Option<string>): Result<User, AuthError> {
    if !Present(c, email) || !Present(c, password) then
      Failure(ParamMissing)
    else
      c.findByCredentials(email.value, password.value).ToResult(InvalidAuthValues)
  }

  /** The first stage of the pipeline: branch on the refresh token's truthiness. */
  function ResolveUser(c: Collaborators, req: Request): (r: Result<User, AuthError>)
    ensures r.Success? ==> Identifies(c, req, r.value)
    ensures r.Failure? ==> forall u :: !Identifies(c, req, u)
    ensures !Truthy(req.refreshToken) && !(Present(c, req.email) && Present(c, req.password)) ==> r == Failure(ParamMissing)
  {
    if Truthy(req.refreshToken) then
      ResolveByToken(c, req.refreshToken.value)
    else
      ResolveByCredentials(c, req.email, req.password)
  }

  /** The second stage: mint an access token for the resolved user. */
  function IssueAccessToken(c: Collaborators, u: User): Result<Token, AuthError> {
    c.mint(u.id, u.password).ToResult(EncodingError)
  }

  /** The single error-mapping boundary: a minted token is answered together
      with the refresh token the request presented, and every failure, whatever
      its reason, becomes the same `Forbidden`. */
  function Respond(req: Request, minted: Result<Token, AuthError>): Outcome
  {
    match minted
    case Success(token) => Ok(token, req.refreshToken)
    case Failure(_) => Forbidden
  }

  /** The whole handler as a sequential pipeline. */
  function Handle(c: Collaborators, req: Request): (r: Outcome)
    ensures r.Ok? ==> r.refreshToken == req.refreshToken
    ensures r.Ok? ==> exists u :: Identifies(c, req, u) && c.mint(u.id, u.password) == Some(r.accessToken)
    ensures r.Forbidden? <==> forall u :: Identifies(c, req, u) ==> c.mint(u.id, u.password).None?
  {
    var minted := (var user :- ResolveUser(c, req); IssueAccessToken(c, user));
    Respond(req, minted)
  }
}
