/** What the login/refresh handler answers, path by path, for all collaborators
    and all requests. */
module HandlerProperties {
  import opened Wrappers
  import opened Users
  import opened RefreshHandler

  /** A request identifies at most one user. */
  lemma IdentifiesAtMostOne(c: Collaborators, req: Request, u1: User, u2: User)
    requires Identifies(c, req, u1) && Identifies(c, req, u2)
    ensures u1 == u2
  {
  }

  /** The pipeline's first stage finds exactly the user the request identifies. */
  lemma ResolveUserExact(c: Collaborators, req: Request, u: User)
    ensures ResolveUser(c, req) == Success(u) <==> Identifies(c, req, u)
  {
  }

  // ---------------------------------------------------------------------------
  // Refresh path: the request carries a truthy refresh token.

  /** A token naming an existing ACTIVE user yields a fresh access token for
      that user's id and password hash, and echoes the presented refresh token. */
  lemma RefreshPathSucceeds(c: Collaborators, req: Request, details: RefreshDetails, u: User, token: Token)
    requires Truthy(req.refreshToken)
    requires c.decodeRefresh(req.refreshToken.value) == Some(details)
    requires Truthy(details.userId) && c.findById(details.userId.value) == Some(u)
    requires IsActive(u)
    requires c.mint(u.id, u.password) == Some(token)
    ensures Handle(c, req) == Ok(token, req.refreshToken)
  {
  }

  /** A found user that is not ACTIVE is always rejected, whatever the token's
      claims and whatever the minter would produce. */
  lemma InactiveUserForbidden(c: Collaborators, req: Request, details: RefreshDetails, u: User)
    requires Truthy(req.refreshToken)
    requires c.decodeRefresh(req.refreshToken.value) == Some(details)
    requires Truthy(details.userId) && c.findById(details.userId.value) == Some(u)
    requires !IsActive(u)
    ensures Handle(c, req) == Forbidden
  {
  }

  /** A token that does not decode, carries no user id, or names no stored user
      is rejected. */
  lemma UnresolvedTokenForbidden(c: Collaborators, req: Request)
    requires Truthy(req.refreshToken)
    requires var d := c.decodeRefresh(req.refreshToken.value);
      || d.None?
      || !Truthy(d.value.userId)
      || c.findById(d.value.userId.value).None?
    ensures Handle(c, req) == Forbidden
  {
  }

  /** On the refresh path the email, the password, the credential lookup and
      the presence validator play no part: replacing any of them leaves the
      answer unchanged, so a failing token never falls back to credentials. */
  lemma RefreshPathIgnoresCredentials(c: Collaborators, req: Request,
                                      email: Option<string>, password: Option<string>,
                                      find: (string, string) -> Option<User>, present: string -> bool)
    requires Truthy(req.refreshToken)
    ensures Handle(c.(findByCredentials := find, isPresent := present), req.(email := email, password := password))
         == Handle(c, req)
  {
  }

  /** The collaborators with every decoded refresh token's fingerprint claim
      replaced by `f` of the token. */
  function WithFingerprints(c: Collaborators, f: string -> Option<string>): (c': Collaborators)
    ensures forall t :: c'.decodeRefresh(t).Some? <==> c.decodeRefresh(t).Some?
  {
    c.(decodeRefresh := t => match c.decodeRefresh(t)
                             case None => None
                             case Some(d) => Some(d.(fingerprint := f(t))))
  }

  /** The password fingerprint carried by a refresh token is never compared
      with the user's current password: the answer is the same whatever the
      fingerprint claims, so a refresh token stays usable after a password
      change. */
  lemma FingerprintIgnored(c: Collaborators, req: Request, f: string -> Option<string>)
    ensures Handle(WithFingerprints(c, f), req) == Handle(c, req)
  {
  }

  // ---------------------------------------------------------------------------
  // Credential path: no truthy refresh token.

  /** A missing email or password is rejected, whatever the store would say. */
  lemma MissingCredentialsForbidden(c: Collaborators, req: Request, find: (string, string) -> Option<User>)
    requires !Truthy(req.refreshToken)
    requires !Present(c, req.email) || !Present(c, req.password)
    ensures Handle(c, req) == Forbidden
    ensures Handle(c.(findByCredentials := find), req) == Forbidden
  {
  }

  /** Credentials the store does not match are rejected. */
  lemma UnknownCredentialsForbidden(c: Collaborators, req: Request)
    requires !Truthy(req.refreshToken)
    requires Present(c, req.email) && Present(c, req.password)
    requires c.findByCredentials(req.email.value, req.password.value).None?
    ensures Handle(c, req) == Forbidden
  {
  }

  /** Matched credentials yield an access token for that user, whatever the
      user's status: this path makes no status check. The refresh token in the
      answer is the request's own, absent or empty, value: none is issued. */
  lemma CredentialPathSucceeds(c: Collaborators, req: Request, u: User, token: Token)
    requires !Truthy(req.refreshToken)
    requires Present(c, req.email) && Present(c, req.password)
    requires c.findByCredentials(req.email.value, req.password.value) == Some(u)
    requires c.mint(u.id, u.password) == Some(token)
    ensures Handle(c, req) == Ok(token, req.refreshToken)
    ensures !Truthy(Handle(c, req).refreshToken)
  {
  }

  // ---------------------------------------------------------------------------
  // Both paths.

  /** A user the request identifies but for whom no access token can be minted
      is rejected. */
  lemma MintFailureForbidden(c: Collaborators, req: Request, u: User)
    requires Identifies(c, req, u)
    requires c.mint(u.id, u.password).None?
    ensures Handle(c, req) == Forbidden
  {
  }

  /** Requests rejected at any stage, for any reasons, receive identical
      answers: the response does not reveal which stage failed. */
  lemma RejectionIsUniform(c1: Collaborators, req1: Request, e1: AuthError,
                           c2: Collaborators, req2: Request, u2: User)
    requires ResolveUser(c1, req1) == Failure(e1)
    requires ResolveUser(c2, req2) == Success(u2) && c2.mint(u2.id, u2.password).None?
    ensures Handle(c1, req1) == Handle(c2, req2) == Forbidden
  {
  }
}
