/** The handler's per-request state machine, taken one token-codec or
    user-store call at a time: Start, then ResolvingByToken (TokenDecoded,
    UserLoaded) or ResolvingByCredentials, then UserFound, then TokenIssued,
    with Rejected reachable from every non-terminal phase. Each step records
    the token-codec or user-store call it makes, so the trace of a run says
    which lookups a request causes and in which order. */
module RefreshMachine {
  import opened Wrappers
  import opened Users
  import opened RefreshHandler

  datatype Phase =
    | Start
    | ResolvingByToken(token: string)
    | TokenDecoded(userId: Id)
    | UserLoaded(user: User)
    | ResolvingByCredentials(email: string, password: string)
    | UserFound(user: User)
    | TokenIssued(accessToken: Token)
    | Rejected(reason: AuthError)

  /** A call into the token codec or the user store. */
  datatype Call =
    | DecodeRefreshToken(token: string)
    | FindUserById(id: Id)
    | FindUserByCredentials(email: string, password: string)
    | GenerateAccessToken(id: Id, password: PasswordHash)

  datatype Machine = Machine(phase: Phase, trace: seq<Call>)

  predicate Terminal(p: Phase) {
    p.TokenIssued? || p.Rejected?
  }

  /** An upper bound on the number of steps left before a terminal phase. */
  function Rank(p: Phase): nat {
    match p
    case Start => 5
    case ResolvingByToken(_) => 4
    case TokenDecoded(_) => 3
    case UserLoaded(_) => 2
    case ResolvingByCredentials(_, _) => 2
    case UserFound(_) => 1
    case TokenIssued(_) => 0
    case Rejected(_) => 0
  }

  /** An upper bound on the number of token-codec and user-store calls left
      before a terminal phase. */
  function CallBound(p: Phase): nat {
    match p
    case Start => 3
    case ResolvingByToken(_) => 3
    case TokenDecoded(_) => 2
    case UserLoaded(_) => 1
    case ResolvingByCredentials(_, _) => 2
    case UserFound(_) => 1
    case TokenIssued(_) => 0
    case Rejected(_) => 0
  }

  function Init(): Machine {
    Machine(Start, [])
  }

  /** One transition. Each step makes at most one token-codec or user-store
      call and appends it to the trace. The presence check on email and
      password is not a recorded call. */
  function Step(c: Collaborators, req: Request, m: Machine): (next: Machine)
    requires !Terminal(m.phase)
    ensures Rank(next.phase) < Rank(m.phase)
    ensures m.trace <= next.trace && |next.trace| <= |m.trace| + 1
    ensures |next.trace| - |m.trace| + CallBound(next.phase) <= CallBound(m.phase)
  {
    match m.phase
    case Start =>
      if Truthy(req.refreshToken) then
        Machine(ResolvingByToken(req.refreshToken.value), m.trace)
      else if Present(c, req.email) && Present(c, req.password) then
        Machine(ResolvingByCredentials(req.email.value, req.password.value), m.trace)
      else
        Machine(Rejected(ParamMissing), m.trace)
    case ResolvingByToken(t) =>
      var trace := m.trace + [DecodeRefreshToken(t)];
      (match c.decodeRefresh(t)
       case None => Machine(Rejected(InvalidToken), trace)
       case Some(details) =>
         if Truthy(details.userId) then Machine(TokenDecoded(details.userId.value), trace)
         else Machine(Rejected(InvalidAuthValues), trace))
    case TokenDecoded(id) =>
      var trace := m.trace + [FindUserById(id)];
      (match c.findById(id)
       case None => Machine(Rejected(InvalidAuthValues), trace)
       case Some(u) => Machine(UserLoaded(u), trace))
    case UserLoaded(u) =>
      if IsActive(u) then Machine(UserFound(u), m.trace)
      else Machine(Rejected(AccountNotActive), m.trace)
    case ResolvingByCredentials(e, p) =>
      var trace := m.trace + [FindUserByCredentials(e, p)];
      (match c.findByCredentials(e, p)
       case None => Machine(Rejected(InvalidAuthValues), trace)
       case Some(u) => Machine(UserFound(u), trace))
    case UserFound(u) =>
      var trace := m.trace + [GenerateAccessToken(u.id, u.password)];
      match c.mint(u.id, u.password)
      case None => Machine(Rejected(EncodingError), trace)
      case Some(token) => Machine(TokenIssued(token), trace)
  }

  /** Steps until a terminal phase; every run ends, the trace only grows, and
      it grows by no more calls than the starting phase's call bound. */
  function Run(c: Collaborators, req: Request, m: Machine): (last: Machine)
    ensures Terminal(last.phase)
    ensures m.trace <= last.trace && |last.trace| <= |m.trace| + CallBound(m.phase)
    decreases Rank(m.phase)
  {
    if Terminal(m.phase) then m else Run(c, req, Step(c, req, m))
  }

  /** The response a terminal phase produces. */
  function Answer(req: Request, p: Phase): Outcome
    requires Terminal(p)
  {
    match p
    case TokenIssued(token) => Ok(token, req.refreshToken)
    case Rejected(_) => Forbidden
  }

  /** The outcome of running the machine from Start. */
  function Execute(c: Collaborators, req: Request): Outcome {
    Answer(req, Run(c, req, Init()).phase)
  }

  /** The trace of running the machine from Start. */
  function CallsMade(c: Collaborators, req: Request): seq<Call> {
    Run(c, req, Init()).trace
  }
}
