/** The tenant state the `/me` user routes read and write — the users table
    and the set of verification statuses — together with the collaborators the
    routes call but whose code is not part of this model. */
module Store {
  import opened Values
  import opened Users

  type SessionId = string

  /** A verification status: user `userId` re-entered their password in the
      browser session `sessionId`. Statuses have no expiry in this model. */
  type VerificationKey = (UserId, SessionId)

  datatype State = State(users: map<UserId, User>, verificationStatuses: set<VerificationKey>)

  /** How the users query layer writes a JSON column: replace the stored
      object by the new one, or merge the new object's keys into it (the new
      keys win, as with the `||` operator on JSON objects). */
  datatype JsonbMode = Replace | Merge

  /** The value a JSON column holds after the query layer writes `body` into
      it. In both modes every key of the body ends up with the body's value. */
  function WriteCustomData(mode: JsonbMode, current: CustomData, body: CustomData): (stored: CustomData)
    ensures forall k :: k in body ==> k in stored && stored[k] == body[k]
    ensures mode == Replace ==> stored == body
    ensures mode == Merge ==> stored.Keys == current.Keys + body.Keys
    ensures mode == Merge ==> forall k :: k in current && k !in body ==> stored[k] == current[k]
  {
    match mode
    case Replace => body
    case Merge => current + body
  }

  /** Writing the same body twice stores the same object as writing it once,
      in either mode. */
  lemma WriteCustomDataIdempotent(mode: JsonbMode, current: CustomData, body: CustomData)
    ensures WriteCustomData(mode, WriteCustomData(mode, current, body), body) == WriteCustomData(mode, current, body)
  {
    if mode == Merge {
      var once := current + body;
      assert (once + body).Keys == once.Keys;
      assert forall k :: k in once ==> (once + body)[k] == once[k];
    }
  }

  /** The collaborators of the routes, as abstract total functions.
      - `verifyUserPassword(user, password)` holds when the password matches
        the user's stored credential; otherwise the library throws.
      - `encryptUserPassword(password)` returns the cipher text together with
        the tag of the method that produced it.
      - `checkIdentifierCollision(users, body, userId)` holds when the body's
        username or email is already taken; the library then throws.
      - `customDataWrite` is the mode in which `updateUserById` writes the
        `customData` column. */
  datatype Tenant = Tenant(
    verifyUserPassword: (User, string) -> bool,
    encryptUserPassword: string -> Credential,
    checkIdentifierCollision: (map<UserId, User>, ProfilePatch, UserId) -> bool,
    customDataWrite: JsonbMode)

  /** The store invariant: users are keyed by their own id, the two credential
      columns are set together, and every verification status belongs to a
      stored user. */
  predicate Wf(st: State)
  {
    && (forall id :: id in st.users ==> st.users[id].id == id && CredentialPaired(st.users[id]))
    && (forall k :: k in st.verificationStatuses ==> k.0 in st.users)
  }

  /** `checkVerificationStatus(userId, sessionId)` succeeds exactly when a status
      exists for the pair. A successful check does not consume the status. */
  function CheckVerificationStatus(st: State, userId: UserId, sessionId: SessionId): (verified: bool)
    ensures verified <==> (userId, sessionId) in st.verificationStatuses
    ensures verified && Wf(st) ==> userId in st.users
  {
    (userId, sessionId) in st.verificationStatuses
  }

  /** `createVerificationStatus(userId, sessionId)`: an upsert of the status for
      the pair. The check then succeeds for that pair, and every other pair and
      the users table are untouched. */
  function CreateVerificationStatus(st: State, userId: UserId, sessionId: SessionId): (st': State)
    ensures CheckVerificationStatus(st', userId, sessionId)
    ensures forall u, s :: (u, s) != (userId, sessionId) ==>
              (CheckVerificationStatus(st', u, s) <==> CheckVerificationStatus(st, u, s))
    ensures st'.users == st.users
  {
    st.(verificationStatuses := st.verificationStatuses + {(userId, sessionId)})
  }

  /** Creating the same status twice leaves the same state as creating it once. */
  lemma CreateVerificationStatusIsUpsert(st: State, userId: UserId, sessionId: SessionId)
    ensures CreateVerificationStatus(CreateVerificationStatus(st, userId, sessionId), userId, sessionId)
         == CreateVerificationStatus(st, userId, sessionId)
  {
  }

  /** `updateUserById(userId, ...)` with the record the caller computed: only
      that user's row changes. */
  function UpdateUserById(st: State, userId: UserId, updated: User): (st': State)
    requires userId in st.users
    ensures st'.users.Keys == st.users.Keys
    ensures st'.users[userId] == updated
    ensures forall id :: id in st.users && id != userId ==> st'.users[id] == st.users[id]
    ensures st'.verificationStatuses == st.verificationStatuses
  {
    st.(users := st.users[userId := updated])
  }
}
