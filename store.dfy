/**
 * The client's process-wide auth store (client/src/store/index.js): a state
 * object holding `userAuth`, changed only by the reducer's two transitions.
 */
module Store {
  import opened Wrappers

  /** The payload `jwt_decode` reads out of a token string. */
  datatype Claims = Claims(id: string, name: Option<string>, iat: int, exp: int)

  /** The user object the server sends back, as named fields. */
  datatype Profile = Profile(fields: map<string, string>)

  /** `userAuth`: `{}` when logged out, `{ token, user }` after LOGIN_USER. */
  datatype UserAuth = UserAuth(token: Option<Claims>, user: Option<Profile>)

  /** The object literal `{}`. */
  const Empty := UserAuth(None, None)

  /**
   * The store object. `rest` stands for every other top-level field, which
   * the reducer's spread (`...state`) carries over untouched; the store this
   * application builds has none, so it uses `State<()>`.
   */
  datatype State<Rest> = State(userAuth: UserAuth, rest: Rest)

  /** The action objects dispatched to the reducer. */
  datatype Action = LoginUser(payload: UserAuth) | LogoutUser | Other(kind: string)

  /** The `reducer` switch. */
  function Reduce<Rest>(s: State<Rest>, a: Action): (r: State<Rest>)
    ensures r.rest == s.rest
    ensures a.LoginUser? ==> r.userAuth == a.payload
    ensures a.LogoutUser? ==> r.userAuth == Empty
    ensures a.Other? ==> r == s
  {
    match a
    case LoginUser(payload) => s.(userAuth := payload)
    case LogoutUser => s.(userAuth := Empty)
    case Other(_) => s
  }

  /**
   * The state `useReducer` starts from; the context's default value has the
   * same shape.
   */
  function Initial(): (s: State<()>)
    ensures s.userAuth.token.None? && s.userAuth.user.None?
  {
    State(Empty, ())
  }

  /** Logging out a second time changes nothing. */
  lemma LogoutIdempotent<Rest>(s: State<Rest>)
    ensures Reduce(Reduce(s, LogoutUser), LogoutUser) == Reduce(s, LogoutUser)
  {
  }

  /** A logout forgets whatever the last login stored. */
  lemma LogoutUndoesLogin<Rest>(s: State<Rest>, p: UserAuth)
    ensures Reduce(Reduce(s, LoginUser(p)), LogoutUser) == Reduce(s, LogoutUser)
  {
  }

  /** A login replaces the previous login's payload entirely. */
  lemma LoginOverwrites<Rest>(s: State<Rest>, p: UserAuth, q: UserAuth)
    ensures Reduce(Reduce(s, LoginUser(p)), LoginUser(q)) == Reduce(s, LoginUser(q))
  {
  }

  /** Logging out from the initial state is the initial state. */
  lemma InitialIsLoggedOut()
    ensures Reduce(Initial(), LogoutUser) == Initial()
  {
  }
}
