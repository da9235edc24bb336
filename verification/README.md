# Login/refresh token handler — a Dafny model

This project models the authentication request handler of a small recipe
backend (`src/controller/auth/refesh-token.js`). The handler receives
`{email, password, refreshToken}` and resolves a user in one of two ways:

- **Refresh path.** The refresh token is truthy. The handler decodes it,
  looks the user up by the token's `userId` claim, and rejects a user whose
  status is not ACTIVE.
- **Credential path.** There is no truthy refresh token. Both `email` and
  `password` must be present before the store is asked to match them.

The handler then mints an access token bound to the user's `_id` and stored
password hash. It answers `ok({accessToken, refreshToken})`, where
`refreshToken` is whatever the request presented. Every failure becomes the
same detail-free `forbidden`.

Files:

- `wrappers.dfy` (`Wrappers`): `Option` and a failure-compatible `Result`.
- `users.dfy` (`Users`): the three User fields the handler reads: `_id`,
  `password` and `status`. The status is `Active` or a named non-active value.
- `handler.dfy` (`RefreshHandler`): the request, the collaborators, and the
  handler as a sequential pipeline: `ResolveUser`, then `IssueAccessToken`,
  then `Respond`.
- `handler_properties.dfy` (`HandlerProperties`): the handler's answer on each
  path, stated for all collaborators and all requests.
- `machine.dfy` (`RefreshMachine`): the same handler as a per-request state
  machine. The phases are Start, ResolvingByToken, TokenDecoded, UserLoaded,
  ResolvingByCredentials, UserFound, TokenIssued and Rejected. Each step
  makes at most one token-codec or user-store call and records it in a trace.
  The presence check on email and password is not a recorded call.
- `machine_properties.dfy` (`MachineProperties`, `RefreshTraces`): the
  machine gives the same answer as the pipeline. The lemmas also state which
  token-codec and user-store calls each path makes.

The token codec, the user store and the presence validator `Kinds.mustExist`
are parameters of the model, given as uninterpreted functions:

- `decodeRefresh`, `findById`, `findByCredentials`, `mint`: each returns
  `None` for a rejected promise or a missing result.
- `isPresent`: the validator for a supplied email or password. A missing
  field is never present.

JavaScript truthiness of `refreshToken` and of the `userId` claim is written
out as "present and non-empty".

The model follows the code as written. In particular:

- The credential path makes no status check, so a non-ACTIVE user with
  matching credentials still receives an access token.
- No new refresh token is issued on login. The answer echoes the request's own
  `refreshToken`, which on that path is absent or empty.
- The password-fingerprint comparison on the refresh path is commented out.
  It is therefore not live, and `FingerprintIgnored` states that the answer
  does not depend on the fingerprint claim.

## Model

| member | source | states |
|---|---|---|
| RefreshHandler.ResolveUser | src/controller/auth/refesh-token.js:13-38 | covers both resolution stages, `ResolveByToken` (lines 14-34) and `ResolveByCredentials` (lines 35-37): a resolved user is the one the request identifies. On the refresh path that is the ACTIVE user named by the token's `userId`. On the credential path it is the user the store matches to the supplied email and password. A failure means no user is identified. A missing email or password fails as parameter-missing |
| RefreshHandler.Handle | src/controller/auth/refesh-token.js:6-50 | covers the whole pipeline, including the minting stage `IssueAccessToken` (line 42) and the error-mapping stage `Respond` (lines 42-49): a success echoes the presented refresh token. Its access token was minted for `_id`/`password` of a user the request identifies. The answer is `Forbidden` exactly when no identified user can have a token minted |
| HandlerProperties.IdentifiesAtMostOne | src/controller/auth/refesh-token.js:14-37 | a request identifies at most one user |
| HandlerProperties.ResolveUserExact | src/controller/auth/refesh-token.js:13-38 | the pipeline resolves a user if and only if the request identifies that user |
| HandlerProperties.RefreshPathSucceeds | src/controller/auth/refesh-token.js:9-30 | a truthy token whose truthy `userId` names an existing ACTIVE user yields `Ok(mint(_id, password), presented token)` |
| HandlerProperties.InactiveUserForbidden | src/controller/auth/refesh-token.js:22-25 | on the refresh path, a found user that is not ACTIVE is always forbidden, whatever the token contains |
| HandlerProperties.UnresolvedTokenForbidden | src/controller/auth/refesh-token.js:14-33 | a token that does not decode, has a falsy `userId`, or names no stored user is forbidden |
| HandlerProperties.RefreshPathIgnoresCredentials | src/controller/auth/refesh-token.js:14-34 | with a truthy token, changing the email, the password, the credential lookup or the presence validator leaves the answer unchanged: the handler never falls back to credentials |
| HandlerProperties.FingerprintIgnored | src/controller/auth/refesh-token.js:26-30 | the answer does not depend on the token's fingerprint claim, so a refresh token stays usable after a password change |
| HandlerProperties.MissingCredentialsForbidden | src/controller/auth/refesh-token.js:35-36 | with no truthy token, a missing email or password is forbidden whatever the credential lookup would return |
| HandlerProperties.UnknownCredentialsForbidden | src/controller/auth/refesh-token.js:37-40 | credentials the store does not match are forbidden |
| HandlerProperties.CredentialPathSucceeds | src/controller/auth/refesh-token.js:35-44 | matched credentials yield an access token for that user, with no status check. The answered refresh token is the request's own falsy value, so none is issued |
| HandlerProperties.RejectionIsUniform | src/controller/auth/refesh-token.js:40-48 | a request rejected while resolving the user, for any reason, and a request rejected because minting failed receive the identical answer `Forbidden` |
| HandlerProperties.MintFailureForbidden | src/controller/auth/refesh-token.js:42-48 | a failure to mint the access token for an identified user is forbidden |
| RefreshMachine.Step | src/controller/auth/refesh-token.js:12-45 | each transition moves strictly closer to a terminal phase. It makes at most one token-codec or user-store call, only appends to the trace, and uses up its share of the remaining call bound |
| RefreshMachine.Run | src/controller/auth/refesh-token.js:12-49 | every run reaches a terminal phase, TokenIssued or Rejected. The trace only grows, and from Start a run makes at most three token-codec or user-store calls |
| MachineProperties.RunFromUserFound | src/controller/auth/refesh-token.js:39-45 | from a resolved user, the machine makes one minting call and answers as the pipeline's mint-and-respond stages do |
| MachineProperties.MachineAgreesWithHandler | src/controller/auth/refesh-token.js:12-49 | for all collaborators and requests, the state machine's answer, produced by its answering stage `Answer` from the terminal phase, equals the pipeline's |
| MachineProperties.RejectedReachable | src/controller/auth/refesh-token.js:46-48 | from every phase that has not issued a token, refusing collaborators drive the request to Rejected |
| RefreshTraces.RefreshPathCalls | src/controller/auth/refesh-token.js:14-34 | on the refresh path, the first call decodes the presented token. There are at most three calls and never a credential lookup. The store is read at most once |
| RefreshTraces.CredentialPathCalls | src/controller/auth/refesh-token.js:35-37 | on the credential path, there is no token decode and no id lookup, at most two calls, and at most one store read |
| RefreshTraces.MissingCredentialsConsultNothing | src/controller/auth/refesh-token.js:35-36 | a missing email or password is rejected before any token-codec or user-store call is made |

## Left out

- Logging (`console.log`), the HTTP response helper `Res(res)` and the
  promise/async sequencing: the pipeline is modelled as a sequential
  `Result` chain.
- Token codec internals: signing, expiry, and the codec round-trip law
  (decoding a minted token gives back its user id). The codec's source is
  not part of this model, so `decodeRefresh` and `mint` are uninterpreted.
- `Kinds.mustExist`: its definition is not part of this model. For email and
  password (lines 35-36) it is the abstract predicate `isPresent`, plus the
  rule that an absent field fails.
- `Kinds.mustExist(user)` (line 40) is taken to accept every user a lookup
  returns; only a missing user fails.
- The commented-out password-fingerprint check: it is not live behaviour.
  Its absence is stated by `FingerprintIgnored`.
- Writes to the user store: the model's store is only the two lookup
  functions, and the handler returns no store. "The handler only reads the
  store" therefore holds by construction and is not stated as a lemma.
- Request fields that are JSON values other than strings (numbers, objects):
  the request is three optional strings.
- A request without a body: line 8 destructures `req.body` before the promise
  chain exists, so the throw escapes the `.catch` at line 46 and the request
  gets neither `ok` nor `forbidden`. The model's request always has a body.
- The user schema's other fields, validators, indexes and defaults, and the
  status enumeration beyond ACTIVE. Every other status is `NotActive(name)`.
- A minter that resolves to an object without a `token` field: `mint`
  either fails or yields a token.
