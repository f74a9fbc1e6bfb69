/** The router over the six `/me` user routes and runs of request sequences.
    A run applies the requests in order; a failed request leaves the state as
    it was. The lemmas here state what holds over every run: the store
    invariant is kept, users are never added, removed or (un)suspended,
    verification statuses are never consumed, a suspended user's record is
    frozen, and a status can only come from a successful password check. */
module Traces {
  import opened Values
  import opened Users
  import opened Store
  import opened MeUserRoutes

  datatype Route =
    | Get                                  // GET /
    | Patch(body: ProfilePatch)            // PATCH /
    | GetCustom                            // GET /custom-data
    | PatchCustom(customData: CustomData)  // PATCH /custom-data
    | PostPasswordVerify(password: string) // POST /password/verify
    | PostPassword(password: string)       // POST /password

  /** An authenticated request: the caller's id, the value of the `_session`
      cookie if one was sent, and the route with its validated body. */
  datatype Request = Request(userId: UserId, session: Option<string>, route: Route)

  /** The handler a request reaches, with what every handler guarantees about
      the state it leaves behind. */
  function Handle(t: Tenant, st: State, req: Request): (r: Reply)
    ensures r.Ok? ==> r.state.users.Keys == st.users.Keys
    ensures r.Ok? ==> forall id :: id in st.users && id != req.userId ==> r.state.users[id] == st.users[id]
    ensures r.Ok? ==> forall id :: id in st.users ==>
              r.state.users[id].isSuspended == st.users[id].isSuspended && r.state.users[id].id == st.users[id].id
    ensures r.Ok? && req.userId in st.users && st.users[req.userId].isSuspended ==> r.state == st
    ensures r.Ok? ==> st.verificationStatuses <= r.state.verificationStatuses
    ensures r.Ok? ==> forall k :: k in r.state.verificationStatuses && k !in st.verificationStatuses ==>
              && req.route.PostPasswordVerify?
              && req.session.Some? && k == (req.userId, req.session.value)
              && req.userId in st.users && !st.users[req.userId].isSuspended
              && t.verifyUserPassword(st.users[req.userId], req.route.password)
    ensures r.Ok? && Wf(st) ==> Wf(r.state)
  {
    match req.route
    case Get => GetProfile(st, req.userId)
    case Patch(body) => PatchProfile(t, st, req.userId, body)
    case GetCustom => GetCustomData(st, req.userId)
    case PatchCustom(customData) => PatchCustomData(t, st, req.userId, customData)
    case PostPasswordVerify(password) => VerifyPassword(t, st, req.userId, req.session, password)
    case PostPassword(password) => SetPassword(t, st, req.userId, req.session, password)
  }

  /** The state after one request. */
  function Next(t: Tenant, st: State, req: Request): State
  {
    match Handle(t, st, req)
    case Ok(_, st') => st'
    case Err(_) => st
  }

  /** The state after a sequence of requests; the last request is applied last,
      so `Run(t, st, reqs[..i])` is the state request `i` meets. */
  function Run(t: Tenant, st: State, reqs: seq<Request>): State
    decreases |reqs|
  {
    if reqs == [] then st
    else Next(t, Run(t, st, reqs[..|reqs| - 1]), reqs[|reqs| - 1])
  }

  /** Request `i` of the run is a successful `POST /password/verify` by `u`
      in session `s`. */
  predicate VerifiedAt(t: Tenant, st: State, reqs: seq<Request>, i: int, u: UserId, s: SessionId)
    requires 0 <= i < |reqs|
  {
    var before := Run(t, st, reqs[..i]);
    && reqs[i].userId == u && reqs[i].session == Some(s) && s != ""
    && reqs[i].route.PostPasswordVerify?
    && u in before.users && !before.users[u].isSuspended
    && t.verifyUserPassword(before.users[u], reqs[i].route.password)
  }

  /** Every run keeps the store invariant. */
  lemma {:induction false} RunPreservesWf(t: Tenant, st: State, reqs: seq<Request>)
    requires Wf(st)
    ensures Wf(Run(t, st, reqs))
    decreases |reqs|
  {
    if reqs != [] {
      RunPreservesWf(t, st, reqs[..|reqs| - 1]);
    }
  }

  /** No route adds or removes users, and no route consumes a verification
      status: statuses only accumulate. */
  lemma {:induction false} RunKeepsUsersAndStatuses(t: Tenant, st: State, reqs: seq<Request>)
    ensures Run(t, st, reqs).users.Keys == st.users.Keys
    ensures st.verificationStatuses <= Run(t, st, reqs).verificationStatuses
    decreases |reqs|
  {
    if reqs != [] {
      RunKeepsUsersAndStatuses(t, st, reqs[..|reqs| - 1]);
    }
  }

  /** A suspended user's record never changes and no new verification status
      is ever created for them, whoever sends the requests. */
  lemma {:induction false} SuspendedUserFrozen(t: Tenant, st: State, reqs: seq<Request>, u: UserId)
    requires u in st.users && st.users[u].isSuspended
    ensures u in Run(t, st, reqs).users && Run(t, st, reqs).users[u] == st.users[u]
    ensures forall s :: (u, s) in Run(t, st, reqs).verificationStatuses ==> (u, s) in st.verificationStatuses
    decreases |reqs|
  {
    if reqs != [] {
      SuspendedUserFrozen(t, st, reqs[..|reqs| - 1], u);
    }
  }

  /** A verification status that was not there at the start was created by a
      successful `POST /password/verify` of the same user in the same session. */
  lemma {:induction false} StatusHasWitness(t: Tenant, st: State, reqs: seq<Request>, u: UserId, s: SessionId)
    requires (u, s) in Run(t, st, reqs).verificationStatuses
    requires (u, s) !in st.verificationStatuses
    ensures exists i :: 0 <= i < |reqs| && VerifiedAt(t, st, reqs, i, u, s)
    decreases |reqs|
  {
    var n := |reqs|;
    if n > 0 {
      var pre := reqs[..n - 1];
      var before := Run(t, st, pre);
      if (u, s) in before.verificationStatuses {
        StatusHasWitness(t, st, pre, u, s);
        var i :| 0 <= i < |pre| && VerifiedAt(t, st, pre, i, u, s);
        assert pre[..i] == reqs[..i];
        assert VerifiedAt(t, st, reqs, i, u, s);
      } else {
        assert reqs[..n - 1] == pre;
        assert VerifiedAt(t, st, reqs, n - 1, u, s);
      }
    }
  }

  /** Step-up over a whole run: when `POST /password` changes the credential
      of a user who already had a password, either the session was verified at
      the start or an earlier request of the run verified the password of that
      user in that very session. */
  lemma {:induction false} PasswordChangeFollowsVerification(
    t: Tenant, st: State, reqs: seq<Request>, k: int, u: UserId, s: SessionId)
    requires 0 <= k < |reqs|
    requires reqs[k].userId == u && reqs[k].session == Some(s) && reqs[k].route.PostPassword?
    requires u in Run(t, st, reqs[..k]).users && Truthy(Run(t, st, reqs[..k]).users[u].passwordEncrypted)
    requires Handle(t, Run(t, st, reqs[..k]), reqs[k]).Ok?
    ensures (u, s) in st.verificationStatuses || exists i :: 0 <= i < k && VerifiedAt(t, st, reqs, i, u, s)
  {
    var pre := reqs[..k];
    if (u, s) !in st.verificationStatuses {
      StatusHasWitness(t, st, pre, u, s);
      var i :| 0 <= i < |pre| && VerifiedAt(t, st, pre, i, u, s);
      assert pre[..i] == reqs[..i];
      assert VerifiedAt(t, st, reqs, i, u, s);
    }
  }
}
