# Authentication service of the sso-service single-sign-on server, in Dafny

This project models the authentication service of a small single-sign-on
server written in Go. The service has two operations:

- `RegisterNewUser(email, password)` hashes the password with bcrypt at the
  default cost. It then hands `(email, hash)` to the user saver and returns the
  id the store assigned.
- `Login(email, password, appID)` fetches the user by email and compares the
  password with the stored hash. It then fetches the application and asks the
  token signer for a token bound to the user, the application and the
  configured lifetime.

Every failure returns the zero value (id `0`, token `""`) and an error built
with `fmt.Errorf("%s: %w", op, cause)`. There is one exception. A "user not
found" from the store and a failed password comparison (a mismatch or any
other bcrypt error) both become the service's own
`ErrInvalidCredentials` sentinel, so the two cannot be told apart.

Files:

- `errors.dfy` (module `GoErrors`): Go error chains. An error is a base error
  (`errors.New`, compared by identity) or a wrap with an operation name. `Is`
  is `errors.Is` for a sentinel target. `Root` is the innermost cause.
  `IsLoop` is the unwrap loop `errors.Is` runs.
- `models.dfy` (module `Models`): `int64`, byte slices, `time.Duration`, and
  the `User` and `App` records.
- `auth.dfy` (module `Auth`): the service and its two operations. The three
  store interfaces (`UserSaver`, `UserProvider`, `AppProvider`) are function
  values in `Service`. bcrypt's `GenerateFromPassword` and
  `CompareHashAndPassword` and the token signer `jwt.NewToken` are function
  values in `Crypto`. bcrypt's random salt is an explicit `salt` parameter.
  Each operation returns an `Outcome`: Go's `(value, error)` pair plus the
  sequence of collaborator calls it made. That sequence is what the ordering
  and "never called" properties are stated over.
- `memstore.dfy` (module `MemStore`): an in-memory store that implements the
  three interfaces, with one record per email and fresh ids. `Replay` gives the
  store after a sequence of service calls, so it is the durable effect of an
  operation.
- `scenarios.dfy` (module `Scenarios`): registration followed by login against
  the in-memory store.

bcrypt's own promise, that a password matches every hash generated from it, is
the predicate `Auth.Sound`. The end-to-end lemmas take it as a hypothesis.

## Model

| member | source | states |
|---|---|---|
| `GoErrors.IsLoop` | internal/services/auth/auth.go:114 | The compare-then-unwrap loop of `errors.Is` answers true exactly when the chain reaches the target sentinel, which is also exactly when the chain's innermost cause is that sentinel. |
| `GoErrors.IsIffRoot` | internal/services/auth/auth.go:114 | An error chain "is" a sentinel if and only if that sentinel is its innermost cause. Proved by induction over the chain. |
| `GoErrors.WrapKeepsKind` | internal/services/auth/auth.go:77 | Wrapping with `%w` keeps the cause inspectable: the wrapped error is a given sentinel exactly when the cause is, and both have the same innermost cause. |
| `GoErrors.MessageEndsWithRootText` | internal/services/auth/auth.go:77 | The text of the innermost cause is kept at the end of every message built by wrapping it. |
| `GoErrors.Unwrap` | internal/services/auth/auth.go:77 | Unwrapping a `%w` error returns exactly the error it wrapped, and unwrapping a base error returns nil. The cause is strictly smaller, so the walk in `errors.Is` ends. |
| `Auth.RegisterNewUser` | internal/services/auth/auth.go:61-89 | Hashing comes first, at cost 10. The store is called if and only if hashing succeeded, and it receives that hash. Success means the store accepted this email and hash and returned this id. Any failure returns id 0 and an error wrapped with "Auth.RegisterNewUser". |
| `Auth.RegisterSucceeds` | internal/services/auth/auth.go:80-88 | When hashing and saving both succeed, the result is exactly the store's id with no error, after exactly the hash call and the save call. |
| `Auth.RegisterHashFailure` | internal/services/auth/auth.go:72-78 | When hashing fails, the store is never called. The result is id 0 and the bcrypt error wrapped with the operation name. That error keeps its kind, and the message is prefixed with "Auth.RegisterNewUser: ". |
| `Auth.RegisterStoreFailure` | internal/services/auth/auth.go:80-86 | When the store refuses the user (a duplicate email among the reasons), the result is id 0 and the store's error wrapped with the operation name. The original cause is still found by `Is` and is still the innermost cause. |
| `Auth.Login` | internal/services/auth/auth.go:95-149 | Every failure returns "" and an error wrapped with "Auth.Login". Success happens exactly when the user exists, the password matches, the application exists and signing succeeds, and the token is then the signer's token for the fetched user, the fetched application and the TTL. The application lookup and signing happen only after the password is accepted. Login never saves or hashes. |
| `Auth.LoginUnknownUser` | internal/services/auth/auth.go:110-118 | When the provider reports a not-found error, Login returns "" and the invalid-credentials error after a single lookup. The store's not-found sentinel is not in the returned chain. |
| `Auth.LoginWrongPassword` | internal/services/auth/auth.go:125-130 | When the stored hash rejects the password, Login returns "" and the same invalid-credentials error, after the lookup and one comparison. |
| `Auth.CredentialFailuresIndistinguishable` | internal/services/auth/auth.go:113-130 | Take any two logins that are each refused for an unknown email or a wrong password, in any combination. They return the same token and equal error chains (the same operation name around the same sentinel), so the kind and the message are the same too. |
| `Auth.RejectionPathsDifferInWork` | internal/services/auth/auth.go:111-130 | An unknown email never reaches the bcrypt comparison, while a wrong password always does. The two rejections differ in the work done even though their results are identical. |
| `Auth.LoginOtherLookupError` | internal/services/auth/auth.go:113-123 | A user-lookup error other than not-found is returned wrapped with the operation name. The result is each sentinel exactly when the original error is, so it never becomes invalid credentials on its own. |
| `Auth.LoginAppFailure` | internal/services/auth/auth.go:132-136 | After accepted credentials, an application-lookup error is returned wrapped with its kind unchanged, after exactly the user, compare and app calls. |
| `Auth.LoginTokenFailure` | internal/services/auth/auth.go:140-146 | A signing error is returned wrapped, with the empty token, after all four calls. |
| `Auth.LoginOrder` | internal/services/auth/auth.go:110-141 | Login calls its collaborators in the order user lookup, password comparison, application lookup, signing. Each step runs only when the previous one succeeded. Rejected credentials stop after at most two calls, so the application is never looked up for them. |
| `Auth.LoginInvalidCredentialsIff` | internal/services/auth/auth.go:110-146 | Assume no collaborator error is already of the invalid-credentials kind. Then Login reports that kind if and only if the email is unknown or the password is wrong. |
| `Auth.LoginSucceeds` | internal/services/auth/auth.go:138-148 | When every step succeeds, the result is exactly `NewToken(user, app, tokenTTL)` with no error, after the four calls in order. |
| `MemStore.SaveUser` | internal/services/auth/auth.go:19-25 | Reference user saver. A taken email is refused with a wrapped duplicate sentinel and the store is unchanged. A free email is accepted under the next id: exactly one record is added under that email, with an id no other user has. When the next id would not fit in an `int64`, the save is refused with the ids-exhausted sentinel and the store is unchanged. The store invariant (one record per email, distinct ids) is preserved. |
| `MemStore.GetUser` | internal/services/auth/auth.go:27-29 | Reference user provider. It returns the stored record for the email, or an error whose kind is the store's user-not-found sentinel, the one Login tests for. |
| `MemStore.GetApp` | internal/services/auth/auth.go:31-33 | Reference app provider. It returns exactly the stored application for the id, name and secret included, or an error whose kind is the store's app-not-found sentinel. |
| `MemStore.Replay` | internal/services/auth/auth.go:80-81 | The store after a sequence of service calls. Only the save call changes it. Replaying keeps the invariant, never removes users, and leaves applications alone. |
| `MemStore.LoginLeavesStoreUnchanged` | internal/services/auth/auth.go:95-149 | Login has no durable effect on the store. |
| `MemStore.DuplicateRegistrationFails` | internal/services/auth/auth.go:59-86 | Registering an email that is already stored returns id 0 and an error, and the store does not change. When hashing succeeds, the store's duplicate sentinel is visible through the service's wrap. When hashing fails, the error is bcrypt's and the store is never called. |
| `MemStore.RegisterAddsOneUser` | internal/services/auth/auth.go:80-88 | A successful registration adds exactly one record: the given email, the generated hash and the returned id. The store invariant still holds afterwards. |
| `Scenarios.RegisterThenLogin` | internal/services/auth/auth.go:61-148 | Assume a valid store, a sound bcrypt, an email not yet stored with ids left, a hash that succeeds, an application id present in the store, and a signer that succeeds for the new record and that application. Then registration returns the next id, and logging in with the same password gets the signer's token. That token is bound to the record holding the returned id and to the stored application, whose own id is the `appID` the caller supplied. A missing application is covered by the next row. |
| `Scenarios.RegisterThenFailedLogins` | internal/services/auth/auth.go:110-136 | After registration, a wrong password and a never-registered email get the same empty token and invalid-credentials error. A missing application after correct credentials gets the store's app-not-found error, not invalid credentials. |
| `Scenarios.SecondRegistrationRefused` | internal/services/auth/auth.go:59-88 | Assume a valid store, an email not yet stored with ids left, and both hashes succeeding. When that email is registered twice in a row, the first registration succeeds. The second returns 0 with the duplicate sentinel, and the store keeps the first record. |

## Behaviour of the code worth knowing

- Only `ErrInvalidCredentials` is defined
  (internal/services/auth/auth.go:15-17). Every other error, including a
  missing application, is the collaborator's own error wrapped with the
  operation name. The raw cause therefore reaches the caller
  (`Auth.LoginAppFailure`, `Auth.RegisterStoreFailure`).
- An unknown email returns at internal/services/auth/auth.go:117, before the
  bcrypt comparison at internal/services/auth/auth.go:126. The two
  rejections have identical results (`Auth.CredentialFailuresIndistinguishable`)
  but differ in work (`Auth.RejectionPathsDifferInWork`). That difference is a
  timing channel for finding out which emails are registered.
- Neither operation checks that the email or the password is non-empty, and
  the model does not require it either.

## Left out

- Logging (`slog`) and `context.Context`: they do not affect any result in
  internal/services/auth/auth.go.
- The constructor `New` at internal/services/auth/auth.go:43-57 only stores
  its arguments. It is the `Auth.Service` datatype constructor.
- bcrypt internals: salt encoding, the cost arithmetic and the 72-byte password
  limit. `GenerateFromPassword` and `CompareHashAndPassword` are function
  parameters. The salt bytes it draws at random are a parameter, and reading
  them can fail through the function's error result.
- Token claims, expiry arithmetic and signing: internal/lib/jwt is not part of
  this model. `jwt.NewToken` is a function parameter, so the issued-at plus TTL
  expiry and the per-application secret are not stated. That parameter is a
  pure function of (user, app, ttl), so it absorbs the clock the real signer
  reads for the issued-at claim. In the model, two logins by the same user for
  the same application therefore get the same token.
- internal/storage/pgsql/pgsql.go, the PostgreSQL store, is not part of this
  model. The stores are modelled only through the three interfaces, plus the
  in-memory reference store in `MemStore`. The PostgreSQL store may not meet
  that interface contract. Its INSERT has no RETURNING clause, its insert error
  is overwritten by the commit's error, and it tests `sql.ErrNoRows` while it
  runs on a pgx connection.
- internal/storage and internal/domain/models are not part of this model. The
  texts of the storage sentinels `ErrUserNotFound` and `ErrAppNotFound` are
  placeholders, and no property depends on them. `MemStore.ErrUserExists` and
  `MemStore.ErrIdsExhausted` belong to the reference store.
- `errors.Is` follows only single-cause `Unwrap` chains. Custom `Is(error) bool`
  methods and joined multi-cause errors are not modelled, because nothing in
  the service uses them.
- Go strings are `seq<char>`. The byte-for-byte `[]byte(pass)` conversions are
  treated as identity.
- Concurrency: two registrations of the same email are modelled one after the
  other (`Scenarios.SecondRegistrationRefused`), not as a race at the store.
- cmd/sso/main.go and internal/app/app.go: process start-up, signal handling
  and wiring.
