# Session authentication engine of py-shinylive-authentication

A Dafny model of the session-authentication engine that the Shiny
front-ends of py-shinylive-authentication call. The model has three layers.

- **Record layer** (`Models`). Users, sessions, the password check, strict
  session expiry, session refresh, the class-level default expiry and the
  group-subset permission rule.
- **In-process service** (`SimpleAuth`). `get_auth` and `check_auth` as pure
  transitions over the `users` and `sessions` maps. They return an outcome
  (`Ok(token)`, `AuthFailed`, `AuthExpired`, `Permissions`, or `Fault` for an
  uncaught `TypeError`) together with the new session store. `Traces` applies
  any sequence of such calls to one store.
- **HTTP variants.**
  - `TestRoutes` is the test web server. It uses the same records, answers
    with status codes and does not rotate tokens.
  - `LegacyRoutes` is the older dict-backed server. It has no expiry and no
    rotation.
  - `RestClient` is the client. It classifies status codes back into
    outcomes.
- **Seed data and browser-test scenarios** (`Scenarios`).

Modelling conventions:
- Time is an integer count of microseconds, which is the resolution of
  Python's `datetime`. Callers pass in the current time `now`; no clock is
  read.
- `Session.create_id()` and `uuid.uuid4()` are replaced by a caller-supplied
  token, `newToken`. The source does not guard against a collision, so the
  operations have no precondition on that token. Instead, the lemmas that
  need an unused token assume one.
- A group list field declared `List[str] = None` is `Option<seq<string>>`.
  Testing a subset against a missing list (`set(...).issubset(None)`) raises
  `TypeError`. The in-process service surfaces that as `Fault`. The web
  routes answer it with status 500, which is how the web framework answers
  an exception the handler does not catch.

Behaviour worth knowing:
- **Expiry is strict.** A session is expired only when `expires < now`, not
  when `expires <= now`.
- **The TTL is one minute.** It is `SESSIONS_EXPIRE_MIN = 1` from the models
  module. The `2` in `src/simple_security/auth.py` is never used.
- **`check_auth` evicts nothing.** An expired session stays in the store.
- **`check_auth` ignores the required groups.** It never returns
  `Permissions`.
- **Login does not use `now + TTL`.** A new session takes the class-level
  default expiry, which is fixed once when the models module is imported.
- **The test server tells login failures apart.** It answers 204 for an
  unknown user and 401 for a wrong password. Only the client collapses the
  two into `AuthFailed`.
- **The legacy login never returns a token.** It stores the session under a
  UUID object, and the pydantic (v1) response model rejects that UUID as a
  `str`, so the route answers 500 with the session already stored.

## Model

| member | source | states |
|---|---|---|
| Models.SufficientPermissions | src_dev/simple_security/models.py:50-55 | Permission is granted iff nothing is required, or the held list is present and contains every required group as a set. It raises (TypeFault) exactly when something is required and the held list is missing, even if the requirement is empty. |
| Models.RequirementIsSubset | src_dev/simple_security/models.py:51 | When both lists are present, the rule is element-wise containment and never faults. |
| Models.NoRequirementAlwaysPasses | src_dev/simple_security/models.py:51-55 | An absent requirement passes for any held list, including a missing one. |
| Models.PermissionsMonotonic | src_dev/simple_security/models.py:51 | Holding more groups, or requiring fewer (down to none), never turns a granted check into a refusal. |
| Models.SameRuleForUsersAndSessions | src_dev/simple_security/models.py:22-23 | A user and a session with the same groups get the same verdict for every requirement. |
| Models.PasswordCheckIsEquality | src_dev/simple_security/models.py:15-20 | `is_valid` holds exactly when the presented password equals the stored one. |
| Models.ExpiryIsStrict | src_dev/simple_security/models.py:31-36 | A session is invalid iff `expires < now`. It is still valid at `expires == now`, and it is valid at every earlier time. |
| Models.Refresh | src_dev/simple_security/models.py:42-44 | The refreshed session keeps its username and groups. It is valid at exactly the times up to `now` + 1 minute. |
| Models.NewSession | src_dev/simple_security/models.py:26-29 | A session built without an expiry keeps the given username and groups. It is valid through, and not after, one TTL past the module's import time. |
| Models.DefaultExpiryIsShared | src_dev/simple_security/models.py:26-29 | Every session built without an explicit expiry gets the same instant, import time + 1 minute, whatever the user and whenever it is built. |
| SimpleAuth.Login | src/simple_security/auth.py:16-30 | Unknown user or wrong password gives AuthFailed with the store unchanged. A user lacking the groups gives Permissions, and a missing group list gives Fault; both leave the store unchanged. Success returns `newToken`; the store gains exactly that key, mapped to the user's username and groups, and no other entry changes. Login never reports AuthExpired. |
| SimpleAuth.GetAuth | src/simple_security/auth.py:28-29 | The session issued by a successful `get_auth` has the class-level default expiry, not one computed from the login time. |
| SimpleAuth.Validate | src/simple_security/auth.py:32-49 | An absent or expired token gives AuthExpired; failures leave the store unchanged, so nothing is evicted. Otherwise the permission rule decides. Success returns `newToken` and removes the old token. The new entry copies the username and groups and expires `now` + 1 minute, all other entries are unchanged, and the store size is unchanged when `newToken` is unused. Never reports AuthFailed. |
| SimpleAuth.CheckAuth | src/simple_security/auth.py:32-41 | `check_auth` succeeds iff the token is stored and not expired. Otherwise it reports AuthExpired, never Permissions or Fault, since it checks permissions with no requirement. |
| SimpleAuth.InitialStoreIsCoherent | src/simple_security/storage.py:7-13 | Any starting store is coherent relative to its users' (username, groups) pairs together with the pairs its own sessions carry. |
| SimpleAuth.GetAuthPreservesCoherence | src/simple_security/auth.py:28-30 | If every stored session carries an allowed (username, groups) pair and every user's pair is allowed, login keeps that so: the new session carries the user's pair. |
| SimpleAuth.CheckAuthPreservesCoherence | src/simple_security/auth.py:44-48 | Rotation keeps every stored session carrying an allowed (username, groups) pair: the rotated copy carries the pair of the session it replaces. |
| SimpleAuth.WrongPasswordLooksLikeUnknownUser | src/simple_security/auth.py:17-23 | A wrong password and an unknown username give the identical reply: AuthFailed with the store unchanged. |
| SimpleAuth.IssuedTokenPassesUntilDefaultExpiry | src/simple_security/auth.py:28-41 | A just-issued token passes `check_auth` at `now` iff `now` is at most the class-level default expiry. |
| SimpleAuth.RotationRetiresOldToken | src/simple_security/auth.py:32-49 | After a successful `check_auth(t)`, any later `check_auth(t)` gives AuthExpired. |
| SimpleAuth.RotatedTokenLastsOneTtl | src/simple_security/auth.py:44-46 | The rotated token passes `check_auth` exactly up to one TTL after the rotation. |
| SimpleAuth.ExpiredSessionIsKeptAndRejected | src/simple_security/auth.py:38-39 | An expired session gives AuthExpired and stays in the store, and every later check of it is refused again. |
| SimpleAuth.PermissionRefusalKeepsSession | src/simple_security/auth.py:41-42 | A permission refusal leaves the store unchanged. The same token still passes against a requirement it meets. |
| SimpleAuth.GetAuthIntended | src/simple_security/auth.py:28-29 | Corrected login: the issued session is the user's session refreshed at login time. |
| SimpleAuth.IntendedLoginPassesForOneTtl | src/simple_security/auth.py:28-41 | With the corrected login, the new token passes `check_auth` at exactly the times up to one TTL after login. |
| SimpleAuth.ValidateEnforcesRequiredGroups | src/simple_security/auth.py:41 | Corrected re-validation with `groups_needed` succeeds only for a session whose group list contains every required group. |
| Traces.Run | src/simple_security/auth.py:16-49 | Over any sequence of calls, every stored token was already stored or was generated during the run, and the number of granted logins is at most the number of login calls. |
| Traces.SessionCountTracksLogins | src/simple_security/auth.py:28-47 | With unused tokens, the store grows by exactly the number of granted logins. Rotation replaces one entry with one, and nothing is evicted. |
| Traces.RunPreservesCoherence | src/simple_security/auth.py:29-46 | Starting from a store whose sessions carry allowed (username, groups) pairs, with every user's pair allowed, every session still carries an allowed pair after any run. |
| TestRoutes.AuthCheck | src_test_webserver/app_routes.py:21-37 | Gives 204 iff the token is absent or expired. Gives 403 iff it is live and its groups miss a required one, and 500 iff it is live, groups are required and it has no group list. Gives 200 otherwise, with the same token. The store is never changed. |
| TestRoutes.AuthToken | src_test_webserver/app_routes.py:46-61 | Gives 204 iff the user is unknown and 401 iff the password is wrong. Gives 403 or 500 on the permission rule, with the store unchanged. Gives 200 otherwise, inserting exactly `newToken`, mapped to the user's username, groups and default expiry, and returning it. |
| TestRoutes.ExpiryIsCheckedBeforePermissions | src_test_webserver/app_routes.py:26-35 | An expired session gives 204 whatever is required. |
| TestRoutes.AbsentRequirementNeverForbids | src_test_webserver/app_routes.py:26-37 | With no `groups_needed`, `/check` answers 200 or 204 for any store, time and token, never 403 or 500. |
| TestRoutes.CheckDoesNotRotate | src_test_webserver/app_routes.py:36-37 | Repeated checks of a live token keep returning that same token. |
| TestRoutes.IssuedTokenPassesCheck | src_test_webserver/app_routes.py:21-61 | A token fresh from `/token` passes `/check` with the same requirement until the default expiry. |
| LegacyRoutes.AuthCheck | src_webserver/routes.py:21-27 | Gives 204 iff the text token is not a key. Gives 500 iff it is a key and `groups_needed` is missing. Gives 403 iff a needed group is not among the record's groups, and 200 iff all are, with the same token. The store is never changed and there is no expiry. |
| LegacyRoutes.AuthToken | src_webserver/routes.py:35-44 | As written: 401 iff the user is unknown or the password differs, with the store unchanged. Otherwise 500 and never 200; the store gains exactly the UUID key, mapped to the username and groups `""`, and no other entry changes. No token is ever returned. |
| LegacyRoutes.AuthTokenIntended | src_webserver/routes.py:35-44 | Corrected login: 401 as before, otherwise 200 returning the token, with exactly that text key added, mapped to the username and groups `""`, and no other entry changed. |
| LegacyRoutes.CredentialFailuresLookAlike | src_webserver/routes.py:37-41 | An unknown user and a wrong password give the identical 401 reply with the store unchanged, in both versions. |
| LegacyRoutes.LoginSessionIsUnreachable | src_webserver/routes.py:23-43 | As written, no text token reaches the session a login stores: `/auth-check` answers every token and requirement exactly as it did before the login. |
| LegacyRoutes.IntendedTokenPassesOnlyWithoutGroups | src_webserver/routes.py:25-43 | With a text key, the issued token gets 200 iff `groups_needed` is empty, 403 iff it is non-empty, and 500 when it is missing. |
| RestClient.ClassifyLogin | src/restapi_security/auth.py:27-35 | 401 and 204 map to AuthFailed, 403 to Permissions and 200 to Ok with the body token. Every other status maps to AuthExpired. |
| RestClient.ClassifyCheck | src/restapi_security/auth.py:46-54 | 403 maps to Permissions and 200 to Ok with the body token. 204, 401 and every other status map to AuthExpired. |
| RestClient.ClassifiersNeverFault | src/restapi_security/auth.py:46-54 | Neither classifier yields Fault, and the check classifier never yields AuthFailed. |
| RestClient.RemoteLoginMatchesInProcess | src/restapi_security/auth.py:27-35 | `/token` followed by the classifier gives the in-process `get_auth` outcome, with a crash read as AuthExpired, and leaves the identical session store. |
| RestClient.ClientHidesUnknownUser | src/restapi_security/auth.py:28-29 | The server's statuses for an unknown user and a wrong password differ (204 and 401), but the client reports both as AuthFailed. |
| RestClient.RemoteCheckMatchesInProcess | src/restapi_security/auth.py:46-54 | `/check` followed by the classifier reaches the same verdict as in-process re-validation against the same groups. It returns the presented token where the in-process service rotates. |
| Scenarios.DevAppLogins | tests/test_app.py:36-94 | With the development users and `group1` required: an unknown user and a wrong password each give AuthFailed with the store unchanged, `username2` gives Permissions, and `username` logs in. |
| Scenarios.LoginReloadRotates | tests/test_app.py:75-83 | Login and then a reload rotates the token. The old token is then refused, and the new one lasts exactly one minute from the reload. |
| Scenarios.SeedSessionExpiresStrictly | src/simple_security/storage.py:13 | The seed session passes at its expiry instant, despite having no groups, and is refused one microsecond later, staying stored. |
| Scenarios.GrouplessSessionCrashesTestServer | src_test_webserver/app_routes.py:26-33 | Checking a live session that has no group list against any requirement gives 500, which the client reads as AuthExpired. |
| Scenarios.ShippedStoreStaysCoherent | src/simple_security/storage.py:7-13 | The seed session's user is not a user, so the shipped store is not coherent with the users alone. Relative to the users and the seed session's own pair it is, and stays so over any run of calls. |
| Scenarios.LoginAfterFirstMinuteIsAlreadyExpired | src_dev/simple_security/models.py:29 | A login two minutes after import yields a token that the immediate check refuses. |
| Scenarios.IntendedLateLoginPasses | src_dev/simple_security/models.py:42-44 | The same late login with expiry computed at login time passes the immediate check. |
| Scenarios.CheckAuthIgnoresGroupsNeeded | src/simple_security/auth.py:41 | A `username2` token passes `check_auth` although `username2` lacks `app1`. Re-validation against `app1` refuses it. |
| Scenarios.LegacySeedToken | src_webserver/app_security.py:9-14 | The legacy seed token gives 200 for an empty requirement, 403 for `app1`, and 500 when `groups_needed` is missing. |
| Scenarios.LegacyLoginTokenIsLost | src_webserver/routes.py:42-44 | A legacy login with good credentials answers 500 with no token, yet stores a session under the UUID key, and the text token gets 204. With a text key, the login returns the token and it passes. |

## Left out

- Logging (`print`, loguru), `SecretStr` masking (passwords are plain strings) and request/header printing: no effect on outcomes.
- The wall clock: `datetime.now()` is the parameter `now`, read once per call, so `is_valid` and `refresh` in one `check_auth` see the same instant.
- Token generation: `secrets.token_urlsafe(16)` and `uuid.uuid4()` are the parameter `newToken`. Their randomness and uniqueness are not modelled.
- Concurrency: calls are sequential and async interleaving is not modelled. The race between two concurrent rotations of one token is out of scope.
- The `get_url` transport of the REST client: a reply is reduced to its status and the `"token"` field of its body, which is only read on status 200.
- The web framework and pydantic. Request parsing is not modelled. An unhandled handler exception is modelled as status 500. Pydantic v1 semantics are assumed: a `List[str] = None` field may hold `None`, and a `str` field rejects a `uuid.UUID`, so `AuthResponse(token=uuid)` raises and the legacy login answers 500.
- The test web server's `app_security` module is not part of this model. Its users and sessions are taken to be `User` and `Session` records as in `src_dev/simple_security/models.py`.
- `src_dev/app.py` imports a `simple_security.auth` of its own that is not part of this model. `Scenarios.DevAppLogins` takes it to be `src/simple_security/auth.py` together with the development users.
- `src/simple_security/auth.py` imports `.models` from a sibling file that is not part of this model. It is taken to be `src_dev/simple_security/models.py`.
- The Shiny UI shell (modals, notifications, reactive flags, browser local storage), the pyodide/requests/httpx transports, and `src_webserver/main.py`. The latter duplicates the legacy routes, and its password test compares a `SecretStr` to a `str`.
- SimpleAuth.GetAuth: its own contract states only the expiry of the issued session; the full behaviour is stated on `SimpleAuth.Login`, which it instantiates with the class-level default expiry.
- SimpleAuth.CheckAuth: its own contract states only the success condition and the two possible outcomes; the full behaviour, including rotation, is stated on `SimpleAuth.Validate`, which it instantiates with no required groups.

## Findings

| source | as written | input that shows it | evidently intended | confidence | as-written member | corrected member |
|---|---|---|---|---|---|---|
| src_dev/simple_security/models.py:29 | The default `expires` is `datetime.now() + 1 minute`, evaluated once when the class is defined. Every session created by `get_auth` or `/token` shares it. | Log in as `username` two minutes after the service started, then check the token at once: AuthExpired. | The session expires one TTL after login, as `refresh` computes it. | high; not executed | SimpleAuth.GetAuth, Scenarios.LoginAfterFirstMinuteIsAlreadyExpired | SimpleAuth.GetAuthIntended, SimpleAuth.IntendedLoginPassesForOneTtl |
| src_webserver/routes.py:42-43 | The session is stored under a `uuid.UUID` object, while `/auth-check` looks up the presented `str`. | Log in as `username`/`password`: the route stores a session under a UUID key and answers 500, and no `/auth-check` token can reach that session. | Store the session under `str(uuid.uuid4())` and return that text, as `src_test_webserver/app_routes.py` does. | high; not executed | LegacyRoutes.AuthToken, LegacyRoutes.LoginSessionIsUnreachable | LegacyRoutes.AuthTokenIntended, LegacyRoutes.IntendedTokenPassesOnlyWithoutGroups |
| src/simple_security/auth.py:41 | `sufficient_permissions()` is called without `self.groups_needed`, so re-validation never checks groups. | A token issued to `username2` (groups `app2`) passes `check_auth` of an instance requiring `app1`. | Pass `self.groups_needed`, as `get_auth` does. | medium; not executed | SimpleAuth.CheckAuth, Scenarios.CheckAuthIgnoresGroupsNeeded | SimpleAuth.Validate, SimpleAuth.ValidateEnforcesRequiredGroups |
