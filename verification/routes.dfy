/** The account self-service handlers of `userRoutes` (`/me` user routes).
    Each handler is a pure function of the tenant collaborators, the current
    state, the authenticated user id, the `_session` cookie value (for the two
    password routes) and the validated body. It either fails with a typed
    failure or succeeds with a response and the new state. A failure carries no
    state: every guard of these handlers runs before the first write, so a
    failed request writes nothing. */
module MeUserRoutes {
  import opened Values
  import opened Users
  import opened Store

  /** The ways a handler fails. `RequestError` is an error raised by the
      handlers themselves; the others are thrown by the collaborators. */
  datatype Failure =
    | RequestError(code: string, status: int)
    | UserNotFound          // findUserById: no row for the id
    | IdentifierCollision   // checkIdentifierCollision: username or email taken
    | PasswordMismatch      // verifyUserPassword: wrong password
    | VerificationRequired  // checkVerificationStatus: no status for the pair

  const Suspended: Failure := RequestError("user.suspended", 401)
  const NoSession: Failure := RequestError("session.not_found", 401)

  datatype Response =
    | ProfileBody(info: UserInfo, hasPassword: Option<bool>)
    | InfoBody(info: UserInfo)
    | DataBody(data: CustomData)
    | NoContent   // status 204

  datatype Reply = Ok(response: Response, state: State) | Err(failure: Failure)

  /** `GET /`: the profile of the caller, with `hasPassword: true` when a
      password is stored and no `hasPassword` key at all otherwise. Suspension
      is not checked and nothing is written. */
  function GetProfile(st: State, userId: UserId): (r: Reply)
    ensures r.Err? <==> userId !in st.users
    ensures r.Err? ==> r.failure == UserNotFound
    ensures r.Ok? ==> r.state == st && r.response.ProfileBody?
    ensures r.Ok? ==> r.response.info == ProfileOf(st.users[userId])
    ensures r.Ok? ==> (r.response.hasPassword == Some(true) <==> Truthy(st.users[userId].passwordEncrypted))
    ensures r.Ok? ==> r.response.hasPassword != Some(false)
  {
    if userId !in st.users then Err(UserNotFound)
    else
      var user := st.users[userId];
      Ok(ProfileBody(ProfileOf(user), if Truthy(user.passwordEncrypted) then Some(true) else None), st)
  }

  /** `PATCH /`: suspension gate, then the identifier-collision check, then
      the write of the keys present in the body. The response is the profile
      of the updated record. */
  function PatchProfile(t: Tenant, st: State, userId: UserId, body: ProfilePatch): (r: Reply)
    ensures userId !in st.users ==> r == Err(UserNotFound)
    ensures userId in st.users && st.users[userId].isSuspended ==> r == Err(Suspended)
    ensures r == Err(IdentifierCollision) <==>
              userId in st.users && !st.users[userId].isSuspended
              && t.checkIdentifierCollision(st.users, body, userId)
    ensures r.Ok? <==>
              userId in st.users && !st.users[userId].isSuspended
              && !t.checkIdentifierCollision(st.users, body, userId)
    ensures r.Ok? ==> r.state == UpdateUserById(st, userId, ApplyPatch(st.users[userId], body))
    ensures r.Ok? ==> r.response == InfoBody(ProfileOf(r.state.users[userId]))
  {
    if userId !in st.users then Err(UserNotFound)
    else
      var user := st.users[userId];
      if user.isSuspended then Err(Suspended)
      else if t.checkIdentifierCollision(st.users, body, userId) then Err(IdentifierCollision)
      else
        var st' := UpdateUserById(st, userId, ApplyPatch(user, body));
        Ok(InfoBody(ProfileOf(st'.users[userId])), st')
  }

  /** `GET /custom-data`: the stored custom data of a non-suspended caller. */
  function GetCustomData(st: State, userId: UserId): (r: Reply)
    ensures userId !in st.users ==> r == Err(UserNotFound)
    ensures userId in st.users && st.users[userId].isSuspended ==> r == Err(Suspended)
    ensures r.Ok? <==> userId in st.users && !st.users[userId].isSuspended
    ensures r.Ok? ==> r.state == st && r.response == DataBody(st.users[userId].customData)
  {
    if userId !in st.users then Err(UserNotFound)
    else if st.users[userId].isSuspended then Err(Suspended)
    else Ok(DataBody(st.users[userId].customData), st)
  }

  /** `PATCH /custom-data`: writes the body into the caller's custom data
      column, in the query layer's write mode, and echoes the stored value.
      Every key of the body is stored and echoed with the body's value. */
  function PatchCustomData(t: Tenant, st: State, userId: UserId, customData: CustomData): (r: Reply)
    ensures userId !in st.users ==> r == Err(UserNotFound)
    ensures userId in st.users && st.users[userId].isSuspended ==> r == Err(Suspended)
    ensures r.Ok? <==> userId in st.users && !st.users[userId].isSuspended
    ensures r.Ok? ==> r.state == UpdateUserById(st, userId, st.users[userId].(customData :=
              WriteCustomData(t.customDataWrite, st.users[userId].customData, customData)))
    ensures r.Ok? ==> r.response == DataBody(r.state.users[userId].customData)
    ensures r.Ok? ==> forall k :: k in customData ==> k in r.response.data && r.response.data[k] == customData[k]
    ensures r.Ok? && t.customDataWrite == Replace ==> r.response == DataBody(customData)
  {
    if userId !in st.users then Err(UserNotFound)
    else
      var user := st.users[userId];
      if user.isSuspended then Err(Suspended)
      else
        var stored := WriteCustomData(t.customDataWrite, user.customData, customData);
        var st' := UpdateUserById(st, userId, user.(customData := stored));
        Ok(DataBody(st'.users[userId].customData), st')
  }

  /** `POST /password/verify`: the session is checked first — before the user
      is even looked up — then suspension, then the password. Only a matching
      password creates the verification status for (userId, sessionId). */
  function VerifyPassword(t: Tenant, st: State, userId: UserId, session: Option<string>, password: string): (r: Reply)
    ensures !Truthy(session) ==> r == Err(NoSession)
    ensures Truthy(session) && userId !in st.users ==> r == Err(UserNotFound)
    ensures r == Err(Suspended) <==> Truthy(session) && userId in st.users && st.users[userId].isSuspended
    ensures r == Err(PasswordMismatch) <==>
              Truthy(session) && userId in st.users && !st.users[userId].isSuspended
              && !t.verifyUserPassword(st.users[userId], password)
    ensures r.Ok? <==>
              Truthy(session) && userId in st.users && !st.users[userId].isSuspended
              && t.verifyUserPassword(st.users[userId], password)
    ensures r.Ok? ==> r.response == NoContent
    ensures r.Ok? ==> r.state.users == st.users
    ensures r.Ok? ==> r.state.verificationStatuses == st.verificationStatuses + {(userId, session.value)}
  {
    if !Truthy(session) then Err(NoSession)
    else if userId !in st.users then Err(UserNotFound)
    else
      var user := st.users[userId];
      if user.isSuspended then Err(Suspended)
      else if !t.verifyUserPassword(user, password) then Err(PasswordMismatch)
      else Ok(NoContent, CreateVerificationStatus(st, userId, session.value))
  }

  /** `POST /password`: suspension is checked before the session. Step-up
      verification is demanded only when a password is already stored; the new
      credential is one encryption result written as a pair. */
  function SetPassword(t: Tenant, st: State, userId: UserId, session: Option<string>, password: string): (r: Reply)
    ensures userId !in st.users ==> r == Err(UserNotFound)
    ensures userId in st.users && st.users[userId].isSuspended ==> r == Err(Suspended)
    ensures r == Err(NoSession) <==> userId in st.users && !st.users[userId].isSuspended && !Truthy(session)
    ensures r == Err(VerificationRequired) <==>
              userId in st.users && !st.users[userId].isSuspended && Truthy(session)
              && Truthy(st.users[userId].passwordEncrypted)
              && !CheckVerificationStatus(st, userId, session.value)
    ensures r.Ok? <==>
              userId in st.users && !st.users[userId].isSuspended && Truthy(session)
              && (Truthy(st.users[userId].passwordEncrypted) ==> CheckVerificationStatus(st, userId, session.value))
    ensures r.Ok? ==> r.response == NoContent
    ensures r.Ok? ==> r.state == UpdateUserById(st, userId,
                                  WithCredential(st.users[userId], t.encryptUserPassword(password)))
  {
    if userId !in st.users then Err(UserNotFound)
    else
      var user := st.users[userId];
      if user.isSuspended then Err(Suspended)
      else if !Truthy(session) then Err(NoSession)
      else if Truthy(user.passwordEncrypted) && !CheckVerificationStatus(st, userId, session.value) then
        Err(VerificationRequired)
      else
        var credential := t.encryptUserPassword(password);
        Ok(NoContent, UpdateUserById(st, userId, WithCredential(user, credential)))
  }
}
