/** Properties that relate several requests: the guard order of the two
    password routes, the step-up rules of `POST /password`, and the round trips
    between each write route and the read route that observes it. */
module Properties {
  import opened Values
  import opened Users
  import opened Store
  import opened MeUserRoutes

  /** The password codec is sound: a credential produced by encrypting a
      password verifies against that same password. */
  ghost predicate SoundCodec(t: Tenant)
  {
    forall u: User, password: string ::
      t.verifyUserPassword(WithCredential(u, t.encryptUserPassword(password)), password)
  }

  /** The two password routes check suspension and the session in opposite
      orders: a suspended caller without a session cookie is told
      `session.not_found` by `POST /password/verify` and `user.suspended` by
      `POST /password`. */
  lemma OppositeGuardOrder(t: Tenant, st: State, userId: UserId, session: Option<string>, password: string)
    requires userId in st.users && st.users[userId].isSuspended
    requires !Truthy(session)
    ensures VerifyPassword(t, st, userId, session, password) == Err(NoSession)
    ensures SetPassword(t, st, userId, session, password) == Err(Suspended)
  {
  }

  /** Suspension blocks every route of the group except `GET /`. */
  lemma SuspensionGatesAllButProfileRead(
    t: Tenant, st: State, userId: UserId, session: Option<string>,
    body: ProfilePatch, customData: CustomData, password: string)
    requires userId in st.users && st.users[userId].isSuspended
    ensures GetProfile(st, userId).Ok?
    ensures PatchProfile(t, st, userId, body) == Err(Suspended)
    ensures GetCustomData(st, userId) == Err(Suspended)
    ensures PatchCustomData(t, st, userId, customData) == Err(Suspended)
    ensures SetPassword(t, st, userId, session, password) == Err(Suspended)
    ensures Truthy(session) ==> VerifyPassword(t, st, userId, session, password) == Err(Suspended)
  {
  }

  /** A user without a password sets one with no verification status at all,
      and `GET /` then reports `hasPassword: true` unless the cipher text is
      the (falsy) empty string. */
  lemma FirstPasswordNeedsNoStepUp(t: Tenant, st: State, userId: UserId, session: Option<string>, password: string)
    requires userId in st.users && !st.users[userId].isSuspended
    requires !Truthy(st.users[userId].passwordEncrypted)
    requires Truthy(session)
    requires st.verificationStatuses == {}
    ensures SetPassword(t, st, userId, session, password).Ok?
    ensures var st' := SetPassword(t, st, userId, session, password).state;
            t.encryptUserPassword(password).passwordEncrypted != "" ==>
              GetProfile(st', userId).response.hasPassword == Some(true)
  {
  }

  /** With a password stored, verifying it in a session and then setting a new
      one in that same session succeeds. */
  lemma VerifyThenSetSameSession(t: Tenant, st: State, userId: UserId, sessionId: SessionId,
                                 current: string, next: string)
    requires userId in st.users && !st.users[userId].isSuspended
    requires sessionId != ""
    requires t.verifyUserPassword(st.users[userId], current)
    ensures VerifyPassword(t, st, userId, Some(sessionId), current).Ok?
    ensures var st' := VerifyPassword(t, st, userId, Some(sessionId), current).state;
            SetPassword(t, st', userId, Some(sessionId), next).Ok?
  {
  }

  /** A verification is bound to its session: verifying in `s1` does not let a
      caller who already has a password change it from another session `s2`. */
  lemma VerificationIsPerSession(t: Tenant, st: State, userId: UserId, s1: SessionId, s2: SessionId,
                                 current: string, next: string)
    requires userId in st.users && !st.users[userId].isSuspended
    requires Truthy(st.users[userId].passwordEncrypted)
    requires s1 != "" && s2 != "" && s1 != s2
    requires (userId, s2) !in st.verificationStatuses
    requires t.verifyUserPassword(st.users[userId], current)
    ensures var st' := VerifyPassword(t, st, userId, Some(s1), current).state;
            SetPassword(t, st', userId, Some(s2), next) == Err(VerificationRequired)
  {
  }

  /** A verification status is not consumed: after one password change in a
      verified session a second one in the same session succeeds as well. */
  lemma StepUpIsReusable(t: Tenant, st: State, userId: UserId, sessionId: SessionId, first: string, second: string)
    requires userId in st.users && !st.users[userId].isSuspended
    requires sessionId != ""
    requires (userId, sessionId) in st.verificationStatuses
    ensures SetPassword(t, st, userId, Some(sessionId), first).Ok?
    ensures var st' := SetPassword(t, st, userId, Some(sessionId), first).state;
            SetPassword(t, st', userId, Some(sessionId), second).Ok?
  {
  }

  /** With a sound codec, the password just set is the one `POST /password/verify`
      accepts afterwards. */
  lemma SetThenVerify(t: Tenant, st: State, userId: UserId, sessionId: SessionId, password: string)
    requires SoundCodec(t)
    requires SetPassword(t, st, userId, Some(sessionId), password).Ok?
    ensures var st' := SetPassword(t, st, userId, Some(sessionId), password).state;
            VerifyPassword(t, st', userId, Some(sessionId), password).Ok?
  {
    var user := st.users[userId];
    var st' := SetPassword(t, st, userId, Some(sessionId), password).state;
    assert st'.users[userId] == WithCredential(user, t.encryptUserPassword(password));
  }

  /** `PATCH /custom-data` followed by `GET /custom-data` returns what the
      patch echoed, which holds every key of the body with the body's value;
      sending the same body again changes neither the state nor the echo. */
  lemma CustomDataRoundTrip(t: Tenant, st: State, userId: UserId, customData: CustomData)
    requires PatchCustomData(t, st, userId, customData).Ok?
    ensures var r := PatchCustomData(t, st, userId, customData);
            && GetCustomData(r.state, userId) == Ok(r.response, r.state)
            && (forall k :: k in customData ==> k in r.response.data && r.response.data[k] == customData[k])
            && PatchCustomData(t, r.state, userId, customData) == r
  {
    var user := st.users[userId];
    WriteCustomDataIdempotent(t.customDataWrite, user.customData, customData);
  }

  /** `PATCH /` followed by `GET /` shows the profile the patch returned, and
      the write leaves the caller's password status unchanged. */
  lemma ProfileRoundTrip(t: Tenant, st: State, userId: UserId, body: ProfilePatch)
    requires PatchProfile(t, st, userId, body).Ok?
    ensures var r := PatchProfile(t, st, userId, body);
            && GetProfile(r.state, userId).response.info == r.response.info
            && GetProfile(r.state, userId).response.hasPassword == GetProfile(st, userId).response.hasPassword
  {
  }
}
