# Token lifecycle of mern-jwt-auth-setup, modelled in Dafny

This project models the authentication core of a small MERN application:

- **Store** (`store.dfy`): the client's auth store, a state object whose `userAuth` is `{}` or
  `{ token, user }`, changed only by the reducer's LOGIN_USER and LOGOUT_USER cases.
- **Auth** (`auth.dfy`): the client's token helpers and hooks. A class `AuthClient` holds the token
  persisted under the `localStorage` key `"jwtToken"`, the api client's `Authorization` header, the
  store, and the bootstrap's `isDone` flag. Its methods are `setAuthToken` and its two halves,
  `login`, `logout`, and the one-time bootstrap effect. The effect is split into `BootstrapBegin`
  (up to the `await` of the server check) and `BootstrapComplete` (after the check settles). The
  hooks `useIsAuthenticated` and `useAuthenticatedUser` are pure functions of the store.
- **ValidateBody** (`validate_body.dfy`): the middleware that runs a validator on the request body
  and either continues or answers 400 with the errors folded into a field-to-message object.
- **Authentication** (`authentication.js` → `authentication.dfy`): the `/authenticated`, `/login`
  and `/register` handlers over a user collection keyed by email. `/register` runs as a method of
  the class `UserCollection` and is specified by the function `RegisterRoute`.
- **RouteGuards** (`route_guards.dfy`): `PrivateRoute` and `GuestRoute`, each a function of
  `useIsAuthenticated` that renders the content or a redirect.
- `wrappers.dfy` (`Option`) and `http.dfy` (user documents, response bodies) hold shared types.

Foreign calls are parameters. `jwt_decode` is the `decode` field of `AuthClient`. `bcrypt.compare`,
`jwtSign`, `passwordHash`, and the database's read and write failures are fields of
`Authentication.Collaborators`. The current time `Date.now() / 1000` is a `real` parameter `now`.
A token's `exp` is an integer. JavaScript truthiness of a token string ("present and not empty") is
the predicate `Auth.Truthy`.

Two behaviours of the client are reproduced as the code has them:

- the bootstrap's expired branch invalidates the token but never sets `isDone`;
- the bootstrap treats a token as expired when `exp < now`, while `useIsAuthenticated` requires
  `exp > now`. A token expiring exactly now is kept by the one and rejected by the other
  (`Auth.BoundaryToken`).

The server handlers are modelled as written:

- the login success path *returns* `{ success, token, user }` from the handler and sends nothing
  (`LoginOutcome.Returned`);
- the login 404 body is `{ emailnotfound: … }` and the signed payload is `{ id, name }`;
- `/register` echoes the new document including its hashed password; the handler does not strip it
  (authentication.js:107).

## Model

| member | source | states |
|---|---|---|
| `Store.Reduce` | fileaddons/client/src/store/index.js:14-27 | LOGIN_USER replaces `userAuth` with the payload, LOGOUT_USER sets it to `{}`, both keep every other field; any other action returns the state unchanged |
| `Store.Initial` | fileaddons/client/src/store/index.js:33-35 | the initial state (the same shape as the context default at lines 8-10) has no token and no user |
| `Store.LogoutIdempotent` | fileaddons/client/src/store/index.js:21-23 | applying LOGOUT_USER twice equals applying it once |
| `Store.LogoutUndoesLogin` | fileaddons/client/src/store/index.js:17-23 | a LOGOUT_USER after a LOGIN_USER leaves the state a LOGOUT_USER alone would |
| `Store.LoginOverwrites` | fileaddons/client/src/store/index.js:17-19 | a second LOGIN_USER discards the first one's payload |
| `Store.InitialIsLoggedOut` | fileaddons/client/src/store/index.js:21-35 | logging out from the initial state is the initial state |
| `Auth.Kept` | fileaddons/client/src/utils/auth.js:17-37 | a truthy token is what gets stored and attached; anything else removes the key and sets the header to `false` |
| `Auth.Expired` | fileaddons/client/src/utils/auth.js:71 | the bootstrap's test `exp < now`; an expired token never authenticates, and an unexpired one has `exp >= now` |
| `Auth.AuthenticatedUser` | fileaddons/client/src/utils/auth.js:119-125 | `useAuthenticatedUser` returns the store's `user`, absent in the `{}` state |
| `Auth.IsAuthenticated` | fileaddons/client/src/utils/auth.js:111-117 | authenticated iff a token is in the store and `exp > now`, strictly |
| `Auth.ExpiryIsPermanent` | fileaddons/client/src/utils/auth.js:111-117 | a store that is not authenticated at `now` is not authenticated at any later time |
| `Auth.AuthenticatedIsUnexpired` | fileaddons/client/src/utils/auth.js:61-117 | a token that authenticates is never one the bootstrap's `exp < now` test calls expired |
| `Auth.BoundaryToken` | fileaddons/client/src/utils/auth.js:61-117 | at `exp == now` the bootstrap keeps the token but `useIsAuthenticated` is false |
| `Auth.UserOutlivesToken` | fileaddons/client/src/utils/auth.js:111-125 | `useAuthenticatedUser` still reports the user once the token has expired |
| `Auth.LoggedOutReadsNothing` | fileaddons/client/src/utils/auth.js:111-125 | after LOGOUT_USER, and in the initial store, there is no user and no authentication |
| `Auth.AuthClient.constructor` | fileaddons/client/src/utils/auth.js:39-42 | a page load starts from the stored token, no header, the initial store and `isDone` false |
| `Auth.AuthClient.Dispatch` | fileaddons/client/src/utils/auth.js:67 | the `dispatch` calls (lines 67, 95, 137, 152): the store becomes the reducer's result for the action; nothing else changes |
| `Auth.AuthClient.StoreAuthToken` | fileaddons/client/src/utils/auth.js:17-25 | storage holds the token when truthy, else the key is removed; nothing else changes |
| `Auth.AuthClient.ApplyAuthToken` | fileaddons/client/src/utils/auth.js:27-37 | the header holds the token when truthy, else `false`; nothing else changes |
| `Auth.AuthClient.SetAuthToken` | fileaddons/client/src/utils/auth.js:8-15 | a truthy token is stored, attached and returned decoded; otherwise both are cleared and the result is undefined; header and storage agree afterwards |
| `Auth.AuthClient.Logout` | fileaddons/client/src/utils/auth.js:145-156 | storage and header cleared, LOGOUT_USER dispatched, never authenticated afterwards; on an already logged-out client nothing changes |
| `Auth.AuthClient.Login` | fileaddons/client/src/utils/auth.js:127-143 | a rejected call changes nothing; otherwise the token is stored and attached, `userAuth = { token: decode(t), user }`, the same decoded token is returned, and authentication then holds iff `exp > now` |
| `Auth.AuthClient.BootstrapBegin` | fileaddons/client/src/utils/auth.js:44-103 | done: nothing happens; no token: only `isDone := true`; expired: storage and header cleared, LOGOUT_USER, `isDone` stays false; unexpired: the stored string is attached to the header, storage untouched, and the check starts with the decoded token |
| `Auth.AuthClient.BootstrapComplete` | fileaddons/client/src/utils/auth.js:79-99 | a failed check invalidates and nothing authenticates; an answer with a user dispatches LOGIN_USER with the captured token; an empty answer dispatches nothing; `isDone` becomes true in every case |
| `Auth.AuthenticatedMeansAttached` | fileaddons/client/src/utils/auth.js:111-117 | in a coherent client, authentication means an unexpired token is persisted and attached to the header |
| `Auth.StrayLoginAfterLogout` | fileaddons/client/src/utils/auth.js:79-99 | a logout while the check is pending is overtaken by the check's LOGIN_USER, leaving a token in the store that is no longer persisted |
| `ValidateBody.Fold` | fileaddons/routes/middleware/validateBodyWith.js:1 | the `reduce` callback applied left to right: it never drops a key, and an empty list leaves the accumulator as it is |
| `ValidateBody.FoldKeys` | fileaddons/routes/middleware/validateBodyWith.js:1 | the fold's keys are the starting keys plus every field of the error list |
| `ValidateBody.FoldKeepsOthers` | fileaddons/routes/middleware/validateBodyWith.js:1 | a field no remaining error names keeps its message |
| `ValidateBody.FoldLastWins` | fileaddons/routes/middleware/validateBodyWith.js:1 | the last error for a field decides its message |
| `ValidateBody.MapValidationErrors` | fileaddons/routes/middleware/validateBodyWith.js:1 | keys are exactly the fields listed, each mapped to its last occurrence's message; `[]` maps to `{}` |
| `ValidateBody.ValidateBodyWith` | fileaddons/routes/middleware/validateBodyWith.js:3-13 | `next` is called iff the validator returns exactly `true`; otherwise status 400 with the mapped errors |
| `ValidateBody.EmptyErrorListRejects` | fileaddons/routes/middleware/validateBodyWith.js:8-11 | an empty error list is not `true`: the request is refused with `{}` |
| `Authentication.Authenticated` | fileaddons/routes/authentication.js:20-24 | `/authenticated` sends the resolved user unchanged with status 200 |
| `Authentication.PayloadOf` | fileaddons/routes/authentication.js:54-57 | the signed payload is exactly `{ id: user.id, name: user.name }` |
| `Authentication.LoginHandler` | fileaddons/routes/authentication.js:30-81 | returns (does not send) `"Bearer " + signed` and the user iff the lookup, the password check and signing succeed, with `expiresIn` 31556926; unknown email or wrong password give the one 404; anything thrown gives the fixed 500 |
| `Authentication.LoginRoute` | fileaddons/routes/authentication.js:30 | a body the validator refuses gets the 400 and never reaches the lookup; otherwise the handler runs |
| `Authentication.UnknownEmailLooksLikeWrongPassword` | fileaddons/routes/authentication.js:42-52 | an unknown email and a wrong password produce identical outcomes |
| `Authentication.NewUser` | fileaddons/routes/authentication.js:99-103 | the new document holds the name, the email and the hashed password |
| `Authentication.RegisterHandler` | fileaddons/routes/authentication.js:86-116 | the 400 conflict happens iff the lookup succeeds and the email is taken, and leaves the collection unchanged; a 200 happens iff lookup, hash and save succeed, adds exactly the new document and echoes it with its hashed password; every other outcome is the fixed 500 and adds nothing |
| `Authentication.RegisterRoute` | fileaddons/routes/authentication.js:86 | a body the validator refuses gets the 400 and the collection is unchanged; otherwise the handler runs |
| `Authentication.RegisterTwiceConflicts` | fileaddons/routes/authentication.js:92-97 | after a successful registration, registering the same email again is the conflict and adds no second record |
| `Authentication.RegisterThenLogin` | fileaddons/routes/authentication.js:36-107 | after registering, logging in with the same credentials returns the new user and a token signed over its id and name, when bcrypt accepts the password against its own hash |
| `Authentication.AsWritten` | fileaddons/routes/authentication.js:102 | the unbound name `passwordHash` throws on every call |
| `Authentication.RegisterAsWrittenNeverCreates` | fileaddons/routes/authentication.js:99-113 | as written, registering a new email always yields the 500 and adds no record |
| `Authentication.UserCollection.Register` | fileaddons/routes/authentication.js:86-116 | the collection and response after `/register` are those of `RegisterRoute`; only a 200 changes the collection |
| `RouteGuards.RedirectPath` | fileaddons/client/src/components/PrivateRoute.js:4 | `redirectTo` defaults to `"/"` |
| `RouteGuards.Content` | fileaddons/client/src/components/PrivateRoute.js:11 | renders `Component` when given, otherwise `children` |
| `RouteGuards.PrivateRoute` | fileaddons/client/src/components/PrivateRoute.js:4-21 | shows the content iff authenticated, else redirects to `redirectTo` carrying the browser's global location |
| `RouteGuards.GuestRoute` | fileaddons/client/src/components/GuestRoute.js:4-21 | shows the content iff not authenticated, else redirects to `redirectTo` carrying the route's `location` |
| `RouteGuards.GuardsAreComplements` | fileaddons/client/src/components/GuestRoute.js:8-14 | for the same store and time exactly one of the two guards shows its content |
| `RouteGuards.GuardsDependOnlyOnIsAuthenticated` | fileaddons/client/src/components/PrivateRoute.js:6-14 | two stores with the same `useIsAuthenticated` render the same way |
| `RouteGuards.LoggedOutGuards` | fileaddons/client/src/components/GuestRoute.js:6-13 | after a logout private routes redirect and guest routes show their content |

## Left out

- Hashing and tokens: bcrypt, `jsonwebtoken` and `jwt-decode` are opaque functions; no salts, signatures or encodings are modelled.
- `jwt_decode` is total: a malformed stored string, which makes it throw, is not modelled; neither is a decoded payload without `exp`.
- The passport strategy and `authenticateUser` middleware: `/authenticated` receives an already resolved user.
- The validator schemas (`fastest-validator`): the validator is any function returning exactly `true` or a list of errors.
- Request bodies are read as `{ name?, email, password }` with string fields.
- Express routing, `res.status/json` and `console.log`: handlers return values instead.
- The database is a map from email to document, with read and write failures as flags. Mongoose's `.select("name email")` at authentication.js:40, which drops `password` from the looked-up user, is not modelled: the looked-up document is the stored one.
- `ValidateBody.MapValidationErrors`: the order of keys in the 400 body is lost; the `reduce` builds the object in insertion order (each field at its first occurrence), and a Dafny `map` has no order.
- The user document's id is a parameter of `/register`, standing for the id Mongoose assigns.
- `localStorage` and the api client's header are fields; the value of an `api.authenticated()` or `api.login()` request is a parameter.
- React: hook scheduling, context, rendering and the `Route`/`Redirect` components. When the effect runs is not modelled, only what one run does. The requirement that `BootstrapBegin` not run while a check is pending stands for the effect's dependencies, which change only when the check completes.
- Asynchrony: the one pending bootstrap check is the `inFlight` field; other interleavings are any order of method calls.
- Time is a `real` parameter rather than the floating-point `Date.now() / 1000`.

## Findings

| source | as written | input that shows it | evidently intended | confidence | as-written member | corrected member |
|---|---|---|---|---|---|---|
| fileaddons/routes/authentication.js:102 | `passwordHash` is called but is never imported (lines 1-15), so the call throws a ReferenceError, which the `catch` turns into the 500 | any body the validator accepts whose email is not yet in the collection | `passwordHash` imported from `config/passwordHash.js`, so the new user is saved and echoed | high; not executed | `Authentication.RegisterAsWrittenNeverCreates` | `Authentication.RegisterHandler` |
