# Logto `/me` user routes — a Dafny model

This project models the account self-service handlers of `userRoutes` in
Logto's core (`packages/core/src/routes-me/user.ts`). These handlers serve the
signed-in user's own profile, custom data and password:

| route | handler |
|---|---|
| `GET /` | `MeUserRoutes.GetProfile` |
| `PATCH /` | `MeUserRoutes.PatchProfile` |
| `GET /custom-data` | `MeUserRoutes.GetCustomData` |
| `PATCH /custom-data` | `MeUserRoutes.PatchCustomData` |
| `POST /password/verify` | `MeUserRoutes.VerifyPassword` |
| `POST /password` | `MeUserRoutes.SetPassword` |

The tenant state (`Store.State`) has two parts:
- the users table, a map from user id to `Users.User`;
- the set of verification statuses, a set of `(userId, sessionId)` pairs.

Each handler is a pure function of four things:
- the tenant collaborators;
- the state;
- the authenticated user id, plus the `_session` cookie value for the two password routes;
- the validated body.

It returns `Ok(response, newState)` or `Err(failure)`. Every guard in the
source runs before the first write. So a failure carries no state: a failed
request writes nothing, by construction.

The collaborators are imported by the source, but their code is not part of
this model. They are fields of `Store.Tenant`, typed as total functions:
- `verifyUserPassword` is a predicate on the user record and the password;
- `encryptUserPassword` returns one `(passwordEncrypted, passwordEncryptionMethod)` pair;
- `checkIdentifierCollision` is a predicate on the users table, the body and the caller.

`checkVerificationStatus` and `createVerificationStatus` are a membership test
and an insert on the status set (`Store.CheckVerificationStatus`,
`Store.CreateVerificationStatus`).

Modules, one per file:
- `Values` (values.dfy): `Option`, JSON custom data, and JavaScript truthiness.
- `Users` (users.dfy): the user record, its profile projection, and the two partial writes.
- `Store` (store.dfy): state, collaborators, the store invariant, and status operations.
- `MeUserRoutes` (routes.dfy): the six handlers.
- `Traces` (traces.dfy): the router and runs of request sequences.
- `Properties` (properties.dfy): guard-order, step-up and round-trip lemmas.

JavaScript truthiness is modelled explicitly (`Values.Truthy`), because the
source tests values with `assertThat(sessionId, …)`, `if (oldPasswordEncrypted)`
and `user.passwordEncrypted && …`. An empty `_session` cookie counts as a
missing session. An empty stored cipher text counts as "no password": it
yields no `hasPassword` key and skips the step-up check.

Note the guard order in user.ts:
- `GET /` checks no suspension, while `GET /custom-data` does (user.ts:73).
- `POST /password/verify` checks the session before it looks up the user or checks suspension (user.ts:114-117).
- `POST /password` checks suspension before the session (user.ts:138-143).
- The step-up gate tests the truthiness of the stored cipher text, not just whether it is present (user.ts:145).

`updateUserById` writes the `customData` column in a mode of the query layer
that user.ts does not show. The model covers both modes as a tenant parameter
(`Store.JsonbMode`): replace the stored object, or merge the body's keys into it.

## Model

| member | source | states |
|---|---|---|
| MeUserRoutes.GetProfile | packages/core/src/routes-me/user.ts:29-42 | Fails only for an unknown user. Otherwise it returns the profile projection, with `hasPassword == Some(true)` exactly when a (truthy) password is stored and the key absent otherwise, never `false`. Suspension is not checked and the state is unchanged. |
| MeUserRoutes.PatchProfile | packages/core/src/routes-me/user.ts:44-68 | A suspended caller gets `user.suspended`/401 whatever the body. Otherwise a collision fails with IdentifierCollision and writes nothing. Success happens exactly when neither guard fires. It writes only the patched caller's row and returns the profile of the updated row. |
| MeUserRoutes.GetCustomData | packages/core/src/routes-me/user.ts:70-78 | Fails with `user.suspended`/401 for a suspended caller. Otherwise it returns the stored custom data and leaves the state unchanged. |
| MeUserRoutes.PatchCustomData | packages/core/src/routes-me/user.ts:80-101 | Fails with `user.suspended`/401 for a suspended caller. Otherwise only the caller's `customData` column is written, in the query layer's write mode, and the stored value is echoed. Every key of the body is echoed with the body's value, and under replace mode the echo is the body itself. Every other field, user and status is untouched. |
| Store.WriteCustomData | packages/core/src/routes-me/user.ts:93-95 | In either write mode every key of the body is stored with the body's value. Replace stores exactly the body. Merge keeps the old keys the body does not mention. |
| Store.WriteCustomDataIdempotent | packages/core/src/routes-me/user.ts:93-95 | In either mode, writing the same body twice stores the same object as writing it once. |
| MeUserRoutes.VerifyPassword | packages/core/src/routes-me/user.ts:103-127 | The session is checked first: a missing or empty `_session` gives `session.not_found` even for a suspended or unknown user. Then suspension, then the password. It succeeds exactly when all pass, and only then adds `(userId, sessionId)` to the statuses, with users unchanged. |
| MeUserRoutes.SetPassword | packages/core/src/routes-me/user.ts:129-156 | Suspension is checked before the session. A status is required only when a password is already stored. Success writes both credential columns from one encryption result and nothing else. |
| Users.ProfileOf | packages/core/src/routes-me/user.ts:35 | `pick(user, ...userInfoSelectFields)` copies the id, username, email, phone, name, avatar, custom data and suspension flag. |
| Users.ProfileHidesExactlyCredential | packages/core/src/routes-me/user.ts:64 | Two records have the same profile projection exactly when they differ at most in the two credential columns, so the projection hides the credential and nothing else. |
| Values.Truthy | packages/core/src/routes-me/user.ts:143-145 | JavaScript truthiness of an optional string: a missing value and the empty string are falsy, and any non-empty string is truthy. The same test appears at user.ts:36 and user.ts:114. |
| Users.ApplyPatch | packages/core/src/routes-me/user.ts:56-63 | The keys present in the partial body take the body's values (`null` for `name`/`avatar` included). Absent keys, the credential, the suspension flag and the custom data keep their values. |
| Users.WithCredential | packages/core/src/routes-me/user.ts:149-150 | Both credential columns come from the same encryption result, so they are paired afterwards. The profile projection is unchanged. |
| Store.CheckVerificationStatus | packages/core/src/routes-me/user.ts:146 | The check passes exactly when a status exists for the pair, and in a well-formed store only for a stored user. Checking writes nothing. |
| Store.CreateVerificationStatus | packages/core/src/routes-me/user.ts:121 | After the insert the check succeeds for the pair. Every other pair's check and the users table are unchanged. |
| Store.CreateVerificationStatusIsUpsert | packages/core/src/routes-me/user.ts:121 | Creating the same status twice equals creating it once. |
| Store.UpdateUserById | packages/core/src/routes-me/user.ts:93-95 | Only the target row changes. The set of users and the statuses are kept. |
| Traces.Handle | packages/core/src/routes-me/user.ts:29-156 | Over all six routes, a success keeps the set of users, other users' rows, every suspension flag and all existing statuses. It preserves the store invariant and leaves the state of a suspended caller alone. A new status only comes from a successful password verification of the caller in the request's session. |
| Traces.RunPreservesWf | packages/core/src/routes-me/user.ts:149-150 | Every run of requests keeps the store invariant: users keyed by their id, credential columns set together, statuses only for stored users. |
| Traces.RunKeepsUsersAndStatuses | packages/core/src/routes-me/user.ts:145-147 | No run adds or removes users. No run consumes a verification status: checking a status does not delete it. |
| Traces.SuspendedUserFrozen | packages/core/src/routes-me/user.ts:58-138 | Over any run by any callers, a suspended user's row never changes and no new status is created for them. |
| Traces.StatusHasWitness | packages/core/src/routes-me/user.ts:114-121 | A status absent at the start of a run was created by an earlier successful `POST /password/verify` of that user in that (non-empty) session, against that user's row at the time. |
| Traces.PasswordChangeFollowsVerification | packages/core/src/routes-me/user.ts:145-147 | A successful `POST /password` by a user who already has a password, in session `s`, needs one of two things. Either the pair was verified at the start, or an earlier request in the run verified that user's password in session `s`. |
| Properties.OppositeGuardOrder | packages/core/src/routes-me/user.ts:111-143 | For a suspended caller with no session cookie, `POST /password/verify` answers `session.not_found` and `POST /password` answers `user.suspended`. |
| Properties.SuspensionGatesAllButProfileRead | packages/core/src/routes-me/user.ts:29-138 | A suspended user fails with `user.suspended` on every route except `GET /`, which still succeeds. For `POST /password/verify` this holds once a session is present. |
| Properties.FirstPasswordNeedsNoStepUp | packages/core/src/routes-me/user.ts:145-150 | A user without a password sets one with no verification status at all. `GET /` then reports `hasPassword: true` when the cipher text is non-empty. |
| Properties.VerifyThenSetSameSession | packages/core/src/routes-me/user.ts:119-147 | A correct verification in a session lets the next password change in that same session succeed. |
| Properties.VerificationIsPerSession | packages/core/src/routes-me/user.ts:121-146 | A verification in session `s1` does not let a password holder change the password from another unverified session `s2`. |
| Properties.StepUpIsReusable | packages/core/src/routes-me/user.ts:145-150 | In a verified session two successive password changes both succeed. |
| Properties.SetThenVerify | packages/core/src/routes-me/user.ts:119-150 | If the codec is sound, a password just set is accepted by `POST /password/verify` in the same session. |
| Properties.CustomDataRoundTrip | packages/core/src/routes-me/user.ts:70-97 | After `PATCH /custom-data`, `GET /custom-data` returns exactly what the patch echoed, which holds every key of the body with the body's value. Repeating the patch changes neither the state nor the echo. |
| Properties.ProfileRoundTrip | packages/core/src/routes-me/user.ts:32-64 | After `PATCH /`, `GET /` shows the profile the patch returned, with the same `hasPassword` as before. |
| Users.ApplyPatchIdempotent | packages/core/src/routes-me/user.ts:63 | Applying the same profile patch twice equals applying it once. |

## Left out

- Password hashing and comparison: `encryptUserPassword` and `verifyUserPassword` live in `#src/libraries/user.js`, which is not part of this model. They are abstract functions of `Store.Tenant`. Salting, which makes two encryptions differ, is not modelled. Method-tagged dispatch and legacy methods are not modelled either.
- Verification-status persistence, TTL and expiry live in the tenant library, which is not part of this model. Statuses are a plain set with no time, so nothing ever expires.
- The identifier-collision check's uniqueness and case rules are not part of this model. The check is an abstract predicate, and its distinct error codes for username and email are folded into one `IdentifierCollision`.
- `findUserById` throwing for an unknown id is the failure `UserNotFound`. Its error code and status are not visible in the file.
- `userInfoSelectFields` comes from the schemas package, which is not part of this model. It is modelled as every user field except the two credential columns. Fields the handlers never touch, such as identities and timestamps, are omitted from `User`.
- Cookie parsing (`convertCookieToMap`) is not modelled. The `_session` value is an `Option<string>`.
- Body validation (the zod schemas and the username/email/password regexes from `@logto/core-kit`) is assumed done. Bodies arrive already valid.
- JSON numbers in `customData` are integers. Floating point is not modelled.
- Koa `ctx`/`next` plumbing and HTTP status mapping are not modelled, except for the `(code, status)` pairs raised in the file itself.
- Concurrency is not modelled. Requests are applied one at a time, and each runs atomically.
- Properties.SetThenVerify: holds only under the assumption `SoundCodec` (a freshly encrypted password verifies), because the codec is abstract.
- Only `routes-me/user.ts` is modelled.
- MeUserRoutes.PatchCustomData: the write mode of `updateUserById` for the `customData` column is not visible in user.ts. It is a tenant parameter, so the model does not promise that the echo equals the body except under replace mode.
