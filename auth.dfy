/**
 * The client's token helpers and hooks (client/src/utils/auth.js): the token
 * persisted under "jwtToken", the `Authorization` header attached to every
 * request, and the store's `userAuth` are kept in step by `setAuthToken`,
 * login, logout and the one-time bootstrap check.
 */
module Auth {
  import opened Wrappers
  import opened Store

  /** JavaScript truthiness of a token string: present and not "". */
  predicate Truthy(t: Option<string>) {
    t.Some? && t.value != ""
  }

  /** What `setItem`/`removeItem` (and the header setter) leave behind for `token`. */
  function Kept(token: Option<string>): (k: Option<string>)
    ensures Truthy(token) ==> k == token
    ensures !Truthy(token) ==> k.None?
  {
    if Truthy(token) then token else None
  }

  /** The bootstrap's expiry test, `token.exp < currentTime`. */
  predicate Expired(c: Claims, now: real): (b: bool)
    ensures b ==> !IsAuthenticated(UserAuth(Some(c), None), now)
    ensures !b ==> (c.exp as real) >= now
  {
    (c.exp as real) < now
  }

  /** `useIsAuthenticated`: a token is in the store and `token.exp > now`. */
  function IsAuthenticated(ua: UserAuth, now: real): (b: bool)
    ensures ua.token.None? ==> !b
    ensures ua.token.Some? ==> (b <==> (ua.token.value.exp as real) > now)
  {
    ua.token.Some? && (ua.token.value.exp as real) > now
  }

  /** `useAuthenticatedUser`: the user in the store, whatever the token's expiry. */
  function AuthenticatedUser(ua: UserAuth): (u: Option<Profile>)
    ensures u == ua.user
    ensures ua == Empty ==> u.None?
  {
    ua.user
  }

  /** Once a store stops counting as authenticated, it never counts again as time passes. */
  lemma ExpiryIsPermanent(ua: UserAuth, now: real, later: real)
    requires now <= later && !IsAuthenticated(ua, now)
    ensures !IsAuthenticated(ua, later)
  {
  }

  /** An authenticated store's token is never one the bootstrap would call expired. */
  lemma AuthenticatedIsUnexpired(ua: UserAuth, now: real)
    requires IsAuthenticated(ua, now)
    ensures !Expired(ua.token.value, now)
  {
  }

  /**
   * The two comparisons differ at the boundary: a token expiring exactly now
   * is kept by the bootstrap but does not authenticate.
   */
  lemma BoundaryToken(c: Claims, now: real)
    requires (c.exp as real) == now
    ensures !Expired(c, now)
    ensures !IsAuthenticated(UserAuth(Some(c), None), now)
  {
  }

  /** The user stays reported after the token has expired. */
  lemma UserOutlivesToken(c: Claims, p: Profile, now: real)
    requires (c.exp as real) <= now
    ensures !IsAuthenticated(UserAuth(Some(c), Some(p)), now)
    ensures AuthenticatedUser(UserAuth(Some(c), Some(p))) == Some(p)
  {
  }

  /** The hooks read the store: no user and no authentication after LOGOUT_USER or at start. */
  lemma LoggedOutReadsNothing<Rest>(s: State<Rest>, now: real)
    ensures !IsAuthenticated(Reduce(s, LogoutUser).userAuth, now)
    ensures AuthenticatedUser(Reduce(s, LogoutUser).userAuth).None?
    ensures !IsAuthenticated(Initial().userAuth, now)
    ensures AuthenticatedUser(Initial().userAuth).None?
  {
  }

  /** What `api.login` resolves with: a failed request, or `data: { token, user }`. */
  datatype LoginReply = LoginRejected | LoginData(token: Option<string>, user: Option<Profile>)

  /** What the `login` function's promise settles to. */
  datatype LoginResult = Rejected | Resolved(token: Option<Claims>)

  /** How the bootstrap's `api.authenticated()` call settles. */
  datatype AuthCheck = CheckFailed | CheckAnswered(data: Option<Profile>)

  /**
   * The client-side auth state: the `localStorage` entry, the api client's
   * `Authorization` header (`None` is `false`), the store, the bootstrap's
   * `isDone` flag, and the decoded token an `authCheck` started by the
   * bootstrap is waiting to dispatch.
   */
  class AuthClient {
    var storage: Option<string>
    var header: Option<string>
    var store: State<()>
    var isDone: bool
    var inFlight: Option<Claims>
    const decode: string -> Claims

    /** The header mirrors the persisted token. */
    predicate Synced()
      reads this
    {
      header == Kept(storage)
    }

    /** A token in the store, or one awaiting the server, is the decoding of the persisted one. */
    predicate Grounded()
      reads this
    {
      && (store.userAuth.token.Some? ==> Truthy(storage) && store.userAuth.token.value == decode(storage.value))
      && (inFlight.Some? ==> Truthy(storage) && inFlight.value == decode(storage.value))
    }

    predicate Coherent()
      reads this
    {
      Synced() && Grounded()
    }

    /** A page load: the store's initial state, no header yet, the bootstrap not done. */
    constructor (persisted: Option<string>, decode: string -> Claims)
      ensures storage == persisted && header.None? && store == Initial()
      ensures !isDone && inFlight.None? && this.decode == decode
      ensures Grounded() && (Synced() <==> !Truthy(persisted))
    {
      storage := persisted;
      header := None;
      store := Initial();
      isDone := false;
      inFlight := None;
      this.decode := decode;
    }

    /** `dispatch` into the store's reducer. */
    method Dispatch(a: Action)
      modifies this`store
      ensures store == Reduce(old(store), a)
    {
      store := Reduce(store, a);
    }

    /** `storeAuthToken`. */
    method StoreAuthToken(token: Option<string>)
      modifies this`storage
      ensures storage == Kept(token)
    {
      if Truthy(token) {
        storage := token;
      } else {
        storage := None;
      }
    }

    /** `applyAuthToken`. */
    method ApplyAuthToken(token: Option<string>)
      modifies this`header
      ensures header == Kept(token)
    {
      if Truthy(token) {
        header := token;
      } else {
        header := None;
      }
    }

    /** `setAuthToken`: persist, attach and decode a token, or clear both places. */
    method SetAuthToken(token: Option<string>) returns (decoded: Option<Claims>)
      modifies this`storage, this`header
      ensures storage == Kept(token) && header == Kept(token)
      ensures Truthy(token) ==> decoded == Some(decode(token.value))
      ensures !Truthy(token) ==> decoded.None?
      ensures Synced()
    {
      StoreAuthToken(token);
      ApplyAuthToken(token);
      decoded := if Truthy(token) then Some(decode(token.value)) else None;
    }

    /**
     * The function `useLogout` returns; the bootstrap's `invalidate` is the
     * same sequence.
     */
    method Logout()
      modifies this`storage, this`header, this`store
      ensures storage.None? && header.None?
      ensures store == Reduce(old(store), LogoutUser)
      ensures store.userAuth == Empty && store.rest == old(store.rest)
      ensures forall now: real :: !IsAuthenticated(store.userAuth, now)
      ensures old(storage.None? && header.None? && store.userAuth == Empty) ==> store == old(store)
      ensures Synced() && (inFlight.None? ==> Coherent())
    {
      var _ := SetAuthToken(None);
      Dispatch(LogoutUser);
    }

    /** The function `useLogin` returns, once `api.login` has settled with `reply`. */
    method Login(reply: LoginReply) returns (result: LoginResult)
      modifies this`storage, this`header, this`store
      ensures reply.LoginRejected? ==>
        result.Rejected? && storage == old(storage) && header == old(header) && store == old(store)
      ensures reply.LoginData? ==>
        && storage == Kept(reply.token) && header == Kept(reply.token)
        && result == Resolved(if Truthy(reply.token) then Some(decode(reply.token.value)) else None)
        && store == Reduce(old(store), LoginUser(UserAuth(result.token, reply.user)))
        && AuthenticatedUser(store.userAuth) == reply.user
      ensures reply.LoginData? && Truthy(reply.token) ==>
        forall now: real :: IsAuthenticated(store.userAuth, now) <==> (decode(reply.token.value).exp as real) > now
      ensures reply.LoginData? ==> Synced() && (inFlight.None? ==> Coherent())
    {
      match reply
      case LoginRejected =>
        result := Rejected;
      case LoginData(tokenString, user) =>
        var token := SetAuthToken(tokenString);
        Dispatch(LoginUser(UserAuth(token, user)));
        result := Resolved(token);
    }

    /**
     * The `useAuthTokenStore` effect, up to the point where `authCheck` awaits
     * the server. The effect is never re-run while that check is pending.
     */
    method BootstrapBegin(now: real)
      requires inFlight.None?
      modifies this`storage, this`header, this`store, this`isDone, this`inFlight
      // already done: nothing happens
      ensures old(isDone) ==>
        storage == old(storage) && header == old(header) && store == old(store) && isDone && inFlight.None?
      // no token persisted: only the flag is set
      ensures !old(isDone) && !Truthy(old(storage)) ==>
        storage == old(storage) && header == old(header) && store == old(store) && isDone && inFlight.None?
      // an expired token: invalidated, and the flag is left unset
      ensures !old(isDone) && Truthy(old(storage)) && Expired(decode(old(storage).value), now) ==>
        storage.None? && header.None? && store == Reduce(old(store), LogoutUser) && !isDone && inFlight.None?
      // an unexpired token: attached to the header and sent to the server for checking
      ensures !old(isDone) && Truthy(old(storage)) && !Expired(decode(old(storage).value), now) ==>
        storage == old(storage) && header == old(storage) && store == old(store) && !isDone
        && inFlight == Some(decode(old(storage).value))
      ensures !old(isDone) && Truthy(old(storage)) ==> Synced()
      ensures old(Synced()) ==> Synced()
      ensures old(Grounded()) ==> Grounded()
    {
      if isDone {
        return;
      }
      if !Truthy(storage) {
        isDone := true;
        return;
      }
      var tokenString := storage.value;
      var token := decode(tokenString);
      if Expired(token, now) {
        Logout();
      } else {
        ApplyAuthToken(Some(tokenString));
        inFlight := Some(token);
      }
    }

    /** The rest of `authCheck`, once `api.authenticated()` has settled with `check`. */
    method BootstrapComplete(check: AuthCheck)
      requires inFlight.Some?
      modifies this`storage, this`header, this`store, this`isDone, this`inFlight
      ensures isDone && inFlight.None?
      // the server refused: invalidated as if expired, so not authenticated
      ensures check.CheckFailed? ==>
        storage.None? && header.None? && store == Reduce(old(store), LogoutUser)
        && forall now: real :: !IsAuthenticated(store.userAuth, now)
      // the server answered with a user: the token captured at the start is logged in
      ensures check.CheckAnswered? && check.data.Some? ==>
        storage == old(storage) && header == old(header)
        && store == Reduce(old(store), LoginUser(UserAuth(old(inFlight), check.data)))
      // the server answered with nothing: nothing is dispatched
      ensures check.CheckAnswered? && check.data.None? ==>
        storage == old(storage) && header == old(header) && store == old(store)
      ensures old(Coherent()) ==> Coherent()
    {
      var token := inFlight.value;
      var user: Option<Profile> := None;
      match check {
        case CheckAnswered(data) =>
          user := data;
        case CheckFailed =>
          Logout();
      }
      if user.Some? {
        Dispatch(LoginUser(UserAuth(Some(token), user)));
      }
      isDone := true;
      inFlight := None;
    }
  }

  /** In a coherent client, being authenticated means an unexpired token is persisted and attached. */
  lemma AuthenticatedMeansAttached(c: AuthClient, now: real)
    requires c.Coherent() && IsAuthenticated(c.store.userAuth, now)
    ensures Truthy(c.storage) && c.header == c.storage
    ensures (c.decode(c.storage.value).exp as real) > now
  {
  }

  /**
   * The race the bootstrap tolerates: a logout while `authCheck` is pending
   * is overtaken by the LOGIN_USER the check dispatches when it returns, which
   * leaves a token in the store that is no longer persisted.
   */
  method StrayLoginAfterLogout(decode: string -> Claims, t: string, p: Profile, now: real)
    returns (c: AuthClient)
    requires t != "" && (decode(t).exp as real) >= now
    ensures c.storage.None? && c.header.None? && c.isDone
    ensures c.store.userAuth == UserAuth(Some(decode(t)), Some(p))
    ensures !c.Grounded()
  {
    c := new AuthClient(Some(t), decode);
    c.BootstrapBegin(now);
    c.Logout();
    c.BootstrapComplete(CheckAnswered(Some(p)));
  }
}
