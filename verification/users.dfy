/** The user record as the `/me` user routes see it, the public profile
    projection returned to the caller, and the two partial writes the routes
    make: a profile patch and a credential replacement. */
module Users {
  import opened Values

  type UserId = string

  /** A stored user. `passwordEncrypted` and `passwordEncryptionMethod` are two
      separate nullable columns; the store invariant keeps them paired. */
  datatype User = User(
    id: UserId,
    username: Option<string>,
    primaryEmail: Option<string>,
    primaryPhone: Option<string>,
    name: Option<string>,
    avatar: Option<string>,
    customData: CustomData,
    isSuspended: bool,
    passwordEncrypted: Option<string>,
    passwordEncryptionMethod: Option<string>)

  /** The fields picked by `userInfoSelectFields`: every field except the
      stored credential. */
  datatype UserInfo = UserInfo(
    id: UserId,
    username: Option<string>,
    primaryEmail: Option<string>,
    primaryPhone: Option<string>,
    name: Option<string>,
    avatar: Option<string>,
    customData: CustomData,
    isSuspended: bool)

  /** The validated body of `PATCH /`: every key may be absent. `name` and
      `avatar` are nullable, so for them `Some(None)` means "set to null". */
  datatype ProfilePatch = ProfilePatch(
    username: Option<string>,
    primaryEmail: Option<string>,
    name: Option<Option<string>>,
    avatar: Option<Option<string>>)

  /** The pair returned by one call of the password encryption routine. */
  datatype Credential = Credential(passwordEncrypted: string, passwordEncryptionMethod: string)

  /** The credential columns are both set or both null. */
  predicate CredentialPaired(u: User)
  {
    u.passwordEncrypted.Some? <==> u.passwordEncryptionMethod.Some?
  }

  /** `pick(user, ...userInfoSelectFields)`: the response projection of a user
      record, which copies every field but the two credential columns. */
  function ProfileOf(u: User): (info: UserInfo)
    ensures info.id == u.id && info.isSuspended == u.isSuspended
    ensures info.username == u.username && info.primaryEmail == u.primaryEmail
    ensures info.primaryPhone == u.primaryPhone && info.name == u.name && info.avatar == u.avatar
    ensures info.customData == u.customData
  {
    UserInfo(u.id, u.username, u.primaryEmail, u.primaryPhone, u.name, u.avatar,
             u.customData, u.isSuspended)
  }

  /** `updateUserById(userId, body)` for a profile patch: the keys present in
      the patch are written and every other column keeps its value. */
  function ApplyPatch(u: User, p: ProfilePatch): (u': User)
    ensures p.username.Some? ==> u'.username == p.username
    ensures p.username.None? ==> u'.username == u.username
    ensures p.primaryEmail.Some? ==> u'.primaryEmail == p.primaryEmail
    ensures p.primaryEmail.None? ==> u'.primaryEmail == u.primaryEmail
    ensures p.name.Some? ==> u'.name == p.name.value
    ensures p.name.None? ==> u'.name == u.name
    ensures p.avatar.Some? ==> u'.avatar == p.avatar.value
    ensures p.avatar.None? ==> u'.avatar == u.avatar
    ensures u'.id == u.id && u'.primaryPhone == u.primaryPhone
    ensures u'.customData == u.customData && u'.isSuspended == u.isSuspended
    ensures u'.passwordEncrypted == u.passwordEncrypted
    ensures u'.passwordEncryptionMethod == u.passwordEncryptionMethod
  {
    u.(username := if p.username.Some? then p.username else u.username,
       primaryEmail := if p.primaryEmail.Some? then p.primaryEmail else u.primaryEmail,
       name := if p.name.Some? then p.name.value else u.name,
       avatar := if p.avatar.Some? then p.avatar.value else u.avatar)
  }

  /** `updateUserById(userId, { passwordEncrypted, passwordEncryptionMethod })`:
      both credential columns are written from one encryption result. */
  function WithCredential(u: User, c: Credential): (u': User)
    ensures u'.passwordEncrypted == Some(c.passwordEncrypted)
    ensures u'.passwordEncryptionMethod == Some(c.passwordEncryptionMethod)
    ensures CredentialPaired(u')
    ensures ProfileOf(u') == ProfileOf(u)
  {
    u.(passwordEncrypted := Some(c.passwordEncrypted),
       passwordEncryptionMethod := Some(c.passwordEncryptionMethod))
  }

  /** The projection hides the credential and nothing else: two records have
      the same profile exactly when they differ at most in the credential. */
  lemma ProfileHidesExactlyCredential(u: User, v: User)
    ensures ProfileOf(u) == ProfileOf(v) <==>
            u == v.(passwordEncrypted := u.passwordEncrypted,
                    passwordEncryptionMethod := u.passwordEncryptionMethod)
  {
  }

  /** Applying the same profile patch twice writes nothing new. */
  lemma ApplyPatchIdempotent(u: User, p: ProfilePatch)
    ensures ApplyPatch(ApplyPatch(u, p), p) == ApplyPatch(u, p)
  {
  }
}
