# User accounts and sessions: a Dafny model of `UserService`

This project models the account and session logic of the JWT authentication
server's `UserService` (`server/service/user-service.js`). The service has five
operations, registration, activation, login, logout and refresh, plus a listing
of all users. Each one runs a few guards and then updates two stores:

- the user collection holds records with email, password hash, activation link
  and the `isActivated` flag;
- the refresh-token collection holds one refresh token per user id.

Per email, an account moves `Unregistered → PendingActivation → Activated`.
Whether a user is logged in is whether the token collection holds a token for it.

Layout:

- `auth_types.dfy` (`AuthTypes`): records, the user DTO, token pairs, the error
  kinds, the collaborators and the two stores.
- `user_store.dfy` (`UserStore`): `findOne` by email or by activation link,
  which returns the first match in collection order.
- `token_store.dfy` (`TokenStore`): save, find and remove on the refresh-token
  collection.
- `transitions.dfy` (`Transitions`): each operation as a function from the
  stores before the call to the stores after it and the call's result. Also a
  runner for request sequences and the account status.
- `properties.dfy` (`Properties`): lemmas relating several calls. They cover the
  invariant, the state machine, idempotent activation, duplicate registration,
  login without activation, logout, and token rotation.
- `user_service.dfy` (`Service`): the class `UserService`. Its fields are
  `users` and `sessions`, and its methods update them in place in the source's
  order. Each method is proved equal to its transition and proved to keep the
  invariant.

Modelling choices:

- Collaborators whose code is not part of this model are abstract:
  - `bcrypt.compare` is the function `verify(password, hash)`.
  - `tokenService.validateRefreshToken` is a function from a token to the user
    id in its payload, or nothing.
  - Both live in a `Collaborators` value that the class holds as a constant.
- `bcrypt.hash`, `uuid.v4()` and `tokenService.generateTokens` produce values
  that are parameters: the digest, the activation link and the token pair.
- The mail step is a parameter `mailDelivered`. The source awaits
  `sendActivationMail` without catching, so a rejected send propagates. It does
  so after the user record was created and before any session is saved. The
  model returns `MailError` with the new record kept and no session written.
- The token service is not part of this model. The model assumes its semantics:
  - `saveToken` upserts by user id;
  - `findToken` looks a token up by value;
  - `removeToken` deletes the entries holding the token.

  The rotation lemma depends on this assumption.
- A record's id is its position in the user collection. The core never deletes
  users, so positions are stable and unique. `findOne` returns the first match
  in that order.
- `!refreshToken` is true for a missing token as well as an empty one. The model
  represents both as the empty string.
- `refresh` has no null check after `UserModel.findById`. When the payload names
  a user that does not exist, the source throws a `TypeError` from
  `new UserDto(null)`. The model returns `InternalError` and leaves the stores
  unchanged. This is not an API error of the service.
- Errors are values (`BadRequest(message)`, `Unauthorized`, `MailError`,
  `InternalError`), not exceptions. The `BadRequest` messages are the source's.

## Model

| member | source | states |
|---|---|---|
| Transitions.Registration | server/service/user-service.js:10-40 | A registered email is refused with BadRequest and nothing changes. Otherwise exactly one record is appended: the given email, hash and link, not activated. The call succeeds iff the mail went out; a failed mail gives MailError, not BadRequest. On failure no session is written. On success the result carries the issued tokens and the new user's DTO, and the refresh token is saved under the new id. |
| Transitions.Activation | server/service/user-service.js:42-49 | Succeeds iff some record carries the link. An unknown link gives BadRequest with the stores unchanged. On success the first such record gets `isActivated` set, and no other field, record or session changes. |
| Transitions.Login | server/service/user-service.js:51-69 | Records never change, and a failure changes nothing. An unknown email gives "No user found with this email". Otherwise the call succeeds iff `verify(password, hash)` holds and fails with "Incorrect password" when it does not. `isActivated` plays no part. On success the token is saved under that user's id and the result carries that user's DTO. |
| Transitions.Logout | server/service/user-service.js:71-73 | Records never change. No session holds the token afterwards. Exactly the sessions holding other tokens remain, unchanged. |
| Transitions.Refresh | server/service/user-service.js:75-95 | An empty token, one that fails validation, or one absent from the store gives Unauthorized with nothing changed. With all three checks passed, the call succeeds iff the payload's user exists (otherwise InternalError). On success the new pair is issued for that user as stored now, and its refresh token replaces that user's session. Records never change. |
| UserStore.FindOne | server/service/user-service.js:12-52 | `UserModel.findOne` by email (lines 12, 52) and by activation link (line 43): returns the id of the first record matching the filter, or nothing exactly when no record matches. |
| TokenStore.SaveToken | server/service/user-service.js:34 | Assumed upsert: the id's entry becomes the token and other entries keep theirs. |
| TokenStore.FindToken | server/service/user-service.js:80 | Assumed lookup by value: holds iff some entry holds the token. |
| AuthTypes.ToDto | server/service/user-service.js:31 | `new UserDto(user)`: the DTO carries the record's id, email and `isActivated`, the same at lines 60 and 86. |
| TokenStore.RemoveToken | server/service/user-service.js:72 | Assumed removal by value: no entry holds the token afterwards and all other entries are kept. |
| Properties.RegistrationKeepsInvariant | server/service/user-service.js:12-24 | The duplicate check keeps emails unique, and every session belongs to an existing user. |
| Properties.ApplyKeepsInvariant | server/service/user-service.js:9-101 | Every operation keeps the invariant: unique emails, and sessions only for existing users. |
| Properties.RunKeepsInvariant | server/service/user-service.js:9-101 | Every state reachable by any sequence of requests satisfies the invariant. |
| Properties.ApplyEvolves | server/service/user-service.js:9-101 | No operation removes a record, changes its email, hash or link, or clears `isActivated`. |
| Properties.RunEvolves | server/service/user-service.js:9-101 | The same holds along any sequence of requests. |
| Properties.StatusNeverRegresses | server/service/user-service.js:20-48 | Under such growth an account's status never moves back along Unregistered, PendingActivation, Activated. |
| Properties.RunNeverRegresses | server/service/user-service.js:9-101 | No sequence of requests moves an account's status backwards. |
| Properties.RegistrationMakesPending | server/service/user-service.js:17-29 | Registering a fresh email moves it from Unregistered to PendingActivation, even when the mail fails. |
| Properties.ActivationMakesActivated | server/service/user-service.js:43-48 | A successful activation makes the account of the record carrying the link Activated. |
| Properties.DuplicateRegistrationRejected | server/service/user-service.js:12-15 | A second registration of the same email is refused and changes nothing, and exactly one record carries the email. |
| Properties.ActivationIdempotent | server/service/user-service.js:43-48 | The link is not cleared, so a second activation with it returns the same result and leaves the same stores. |
| Properties.LoginAfterRegistration | server/service/user-service.js:51-68 | Right after registering, the user can log in with the password whose hash was stored. No activation is needed. The login answers with the new id, the email and `isActivated` false, and saves the session. |
| Properties.RefreshAfterLogoutUnauthorized | server/service/user-service.js:71-83 | After logout with a token, refresh with that token is Unauthorized whether or not it would still validate. |
| Properties.StaleRefreshTokenRejected | server/service/user-service.js:79-89 | After a successful refresh that issued a different refresh token, the consumed token is refused. This assumes the token was stored only under the user its payload names, and relies on the assumed upsert. |
| Properties.SessionLifecycle | server/service/user-service.js:10-95 | Register, login, refresh, logout, then refresh with the logged-out token. The first three succeed for the new, unactivated user; the user is logged out after logout; the last refresh is Unauthorized. |
| Service.UserService.constructor | server/service/user-service.js:103 | The service starts with empty stores, which satisfy the invariant. |
| Service.UserService.Registration | server/service/user-service.js:10-40 | In-place registration returns exactly what `Transitions.Registration` prescribes and leaves exactly its stores, keeping the invariant. |
| Service.UserService.Activate | server/service/user-service.js:42-49 | In-place activation agrees with `Transitions.Activation` and keeps the invariant. |
| Service.UserService.Login | server/service/user-service.js:51-69 | In-place login agrees with `Transitions.Login` and keeps the invariant. |
| Service.UserService.Logout | server/service/user-service.js:71-73 | In-place logout agrees with `Transitions.Logout` and keeps the invariant. |
| Service.UserService.Refresh | server/service/user-service.js:75-95 | In-place refresh agrees with `Transitions.Refresh` and keeps the invariant. |
| Service.UserService.GetAllUsers | server/service/user-service.js:97-100 | Returns the whole user collection, record for record, in collection order. |

## Left out

- Password hashing (bcrypt's salt and work factor) and its constant-time compare: foreign crypto. Only the abstract `verify` is kept, and the digest is a parameter.
- `uuid.v4()` and JWT signing, expiry and payload layout inside the token service: foreign and random. The link and the token pair are parameters, and validation is an abstract function.
- Mail delivery and building the activation URL from `API_URL`: I/O and environment. Only whether the send succeeded is modelled.
- The token service's own code is not part of this model. Its save, find and remove semantics are assumptions (see above), and rotation depends on them.
- Mongoose persistence, async/await and the singleton export are left out. Concurrent requests are too: the model serves requests one at a time, so the race of two refreshes with one token is not captured.
- The extra fields of a Mongoose document (such as `_id` as an ObjectId and `__v`) are not modelled; the id is the record's position. `getAllUsers` yields the records as values, not live documents.
