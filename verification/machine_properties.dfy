/** The state machine agrees with the pipeline, and the calls it records show
    which token-codec and user-store calls each path makes. */
module MachineProperties {
  import opened Wrappers
  import opened Users
  import opened RefreshHandler
  import opened RefreshMachine

  // ---------------------------------------------------------------------------
  // The pipeline and the state machine describe the same handler.

  /** From UserFound, the machine answers what the pipeline's minting stage and
      response boundary answer. */
  lemma RunFromUserFound(c: Collaborators, req: Request, u: User, trace: seq<Call>)
    ensures Answer(req, Run(c, req, Machine(UserFound(u), trace)).phase) == Respond(req, IssueAccessToken(c, u))
    ensures Run(c, req, Machine(UserFound(u), trace)).trace == trace + [GenerateAccessToken(u.id, u.password)]
  {
  }

  /** Running the state machine from Start gives exactly the pipeline's answer. */
  lemma {:induction false} MachineAgreesWithHandler(c: Collaborators, req: Request)
    ensures Execute(c, req) == Handle(c, req)
  {
    var m1 := Step(c, req, Init());
    assert Run(c, req, Init()) == Run(c, req, m1);
    if Truthy(req.refreshToken) {
      var t := req.refreshToken.value;
      var m2 := Step(c, req, m1);
      assert Run(c, req, m1) == Run(c, req, m2);
      match c.decodeRefresh(t)
      case None =>
      case Some(details) =>
        if Truthy(details.userId) {
          var m3 := Step(c, req, m2);
          assert Run(c, req, m2) == Run(c, req, m3);
          match c.findById(details.userId.value)
          case None =>
          case Some(u) =>
            var m4 := Step(c, req, m3);
            assert Run(c, req, m3) == Run(c, req, m4);
            if IsActive(u) {
              RunFromUserFound(c, req, u, m4.trace);
            }
        }
    } else if Present(c, req.email) && Present(c, req.password) {
      var m2 := Step(c, req, m1);
      assert Run(c, req, m1) == Run(c, req, m2);
      match c.findByCredentials(req.email.value, req.password.value)
      case None =>
      case Some(u) =>
        RunFromUserFound(c, req, u, m2.trace);
    }
  }

  // ---------------------------------------------------------------------------
  // Rejection is reachable from every phase that has not issued a token.

  /** Collaborators that refuse everything: no token decodes, no user is
      found, nothing is present and nothing can be minted. */
  function Refusing(): Collaborators {
    Collaborators(t => None, id => None, (e, p) => None, (id, h) => None, s => false)
  }

  /** From any phase other than TokenIssued, some collaborators drive the
      request to Rejected. */
  lemma {:induction false} RejectedReachable(req: Request, m: Machine)
    requires !m.phase.TokenIssued?
    ensures Run(Refusing(), req, m).phase.Rejected?
    decreases Rank(m.phase)
  {
    if !Terminal(m.phase) {
      var next := Step(Refusing(), req, m);
      RejectedReachable(req, next);
    }
  }
}


module RefreshTraces {
  import opened Wrappers
  import opened Users
  import opened RefreshHandler
  import opened RefreshMachine
  import MachineProperties

  /** Number of user-store lookups in a trace. */
  function StoreReads(calls: seq<Call>): (n: nat)
    ensures n <= |calls|
  {
    if calls == [] then 0
    else (if calls[0].FindUserById? || calls[0].FindUserByCredentials? then 1 else 0) + StoreReads(calls[1..])
  }

  /** The refresh path first decodes the presented token, consults at most the
      codec, one id lookup and the minter, and never asks the store to match
      email and password, even when both are supplied. */
  lemma {:induction false} RefreshPathCalls(c: Collaborators, req: Request)
    requires Truthy(req.refreshToken)
    ensures var calls := CallsMade(c, req);
      && 1 <= |calls| <= 3
      && calls[0] == DecodeRefreshToken(req.refreshToken.value)
      && (forall k :: 0 <= k < |calls| ==> !calls[k].FindUserByCredentials?)
      && StoreReads(calls) <= 1
  {
    var t := req.refreshToken.value;
    var m1 := Step(c, req, Init());
    var m2 := Step(c, req, m1);
    assert Run(c, req, Init()) == Run(c, req, m1) == Run(c, req, m2);
    match c.decodeRefresh(t)
    case None =>
      assert StoreReads(m2.trace) == 0;
    case Some(details) =>
      if Truthy(details.userId) {
        var id := details.userId.value;
        var m3 := Step(c, req, m2);
        assert Run(c, req, m2) == Run(c, req, m3);
        match c.findById(id)
        case None =>
          assert m3.trace == [DecodeRefreshToken(t), FindUserById(id)];
          assert StoreReads(m3.trace) == 1 by {
            assert m3.trace[1..] == [FindUserById(id)];
            assert m3.trace[1..][1..] == [];
          }
        case Some(u) =>
          var m4 := Step(c, req, m3);
          assert Run(c, req, m3) == Run(c, req, m4);
          if IsActive(u) {
            MachineProperties.RunFromUserFound(c, req, u, m4.trace);
            var calls := [DecodeRefreshToken(t), FindUserById(id), GenerateAccessToken(u.id, u.password)];
            assert CallsMade(c, req) == calls;
            assert StoreReads(calls) == 1 by {
              assert calls[1..][1..][1..] == [];
              assert StoreReads(calls[1..][1..]) == 0;
              assert StoreReads(calls[1..]) == 1;
            }
          } else {
            assert m4.trace == [DecodeRefreshToken(t), FindUserById(id)];
            assert StoreReads(m4.trace) == 1 by {
              assert m4.trace[1..] == [FindUserById(id)];
              assert m4.trace[1..][1..] == [];
            }
          }
      } else {
        assert StoreReads(m2.trace) == 0;
      }
  }

  /** The credential path never touches the token codec's decoder or the id
      lookup, and asks the store at most once. */
  lemma {:induction false} CredentialPathCalls(c: Collaborators, req: Request)
    requires !Truthy(req.refreshToken)
    ensures var calls := CallsMade(c, req);
      && |calls| <= 2
      && (forall k :: 0 <= k < |calls| ==> !calls[k].DecodeRefreshToken? && !calls[k].FindUserById?)
      && StoreReads(calls) <= 1
  {
    var m1 := Step(c, req, Init());
    assert Run(c, req, Init()) == Run(c, req, m1);
    if Present(c, req.email) && Present(c, req.password) {
      var e, p := req.email.value, req.password.value;
      var m2 := Step(c, req, m1);
      assert Run(c, req, m1) == Run(c, req, m2);
      match c.findByCredentials(e, p)
      case None =>
        assert m2.trace == [FindUserByCredentials(e, p)];
        assert StoreReads(m2.trace) == 1 by {
          assert m2.trace[1..] == [];
        }
      case Some(u) =>
        MachineProperties.RunFromUserFound(c, req, u, m2.trace);
        var calls := [FindUserByCredentials(e, p), GenerateAccessToken(u.id, u.password)];
        assert CallsMade(c, req) == calls;
        assert StoreReads(calls) == 1 by {
          assert calls[1..] == [GenerateAccessToken(u.id, u.password)];
          assert calls[1..][1..] == [];
        }
    }
  }

  /** Without a truthy refresh token and without both email and password, the
      request is rejected before any token-codec or user-store call is made. */
  lemma MissingCredentialsConsultNothing(c: Collaborators, req: Request)
    requires !Truthy(req.refreshToken)
    requires !Present(c, req.email) || !Present(c, req.password)
    ensures CallsMade(c, req) == []
    ensures Execute(c, req) == Forbidden
  {
  }
}
