/**
 * The route guards (client/src/components/PrivateRoute.js and GuestRoute.js):
 * each renders its content or a redirect, decided by `useIsAuthenticated`
 * alone.
 */
module RouteGuards {
  import opened Wrappers
  import opened Store
  import Auth

  /** A router location. */
  datatype Location = Location(pathname: string)

  /** A guard's props: `component`, `children` and `redirectTo` (absent when not passed). */
  datatype Props<C, K> = Props(component: Option<C>, children: K, redirectTo: Option<string>)

  /** What `render` produces. */
  datatype Rendered<C, K> = Component(c: C) | Children(k: K) | Redirect(pathname: string, from: Location)

  /** The guarded content is shown rather than a redirect. */
  predicate Shows<C, K>(e: Rendered<C, K>) {
    !e.Redirect?
  }

  /** The `redirectTo = "/"` default. */
  function RedirectPath<C, K>(p: Props<C, K>): (path: string)
    ensures p.redirectTo.None? ==> path == "/"
    ensures p.redirectTo.Some? ==> path == p.redirectTo.value
  {
    match p.redirectTo
    case None => "/"
    case Some(path) => path
  }

  /** `Component ? <Component /> : children`. */
  function Content<C, K>(p: Props<C, K>): (e: Rendered<C, K>)
    ensures Shows(e)
    ensures p.component.Some? ==> e == Component(p.component.value)
    ensures p.component.None? ==> e == Children(p.children)
  {
    match p.component
    case Some(c) => Component(c)
    case None => Children(p.children)
  }

  /**
   * `PrivateRoute`'s render. Its `render` takes no argument, so the redirect
   * carries the browser's global `location`.
   */
  function PrivateRoute<C, K>(p: Props<C, K>, ua: UserAuth, now: real, windowLocation: Location)
    : (e: Rendered<C, K>)
    ensures Shows(e) <==> Auth.IsAuthenticated(ua, now)
    ensures Shows(e) ==> e == Content(p)
    ensures !Shows(e) ==> e == Redirect(RedirectPath(p), windowLocation)
  {
    var isAuth := Auth.IsAuthenticated(ua, now);
    if isAuth then Content(p) else Redirect(RedirectPath(p), windowLocation)
  }

  /** `GuestRoute`'s render, given the route's `location` render argument. */
  function GuestRoute<C, K>(p: Props<C, K>, ua: UserAuth, now: real, routeLocation: Location)
    : (e: Rendered<C, K>)
    ensures Shows(e) <==> !Auth.IsAuthenticated(ua, now)
    ensures Shows(e) ==> e == Content(p)
    ensures !Shows(e) ==> e == Redirect(RedirectPath(p), routeLocation)
  {
    var isAuth := Auth.IsAuthenticated(ua, now);
    if isAuth then Redirect(RedirectPath(p), routeLocation) else Content(p)
  }

  /** For the same store and time, exactly one of the two guards shows its content. */
  lemma GuardsAreComplements<C, K>(p: Props<C, K>, q: Props<C, K>, ua: UserAuth, now: real, l1: Location, l2: Location)
    ensures Shows(PrivateRoute(p, ua, now, l1)) != Shows(GuestRoute(q, ua, now, l2))
  {
  }

  /** A guard's outcome depends on the store and the time only through `useIsAuthenticated`. */
  lemma GuardsDependOnlyOnIsAuthenticated<C, K>(p: Props<C, K>, ua1: UserAuth, now1: real,
                                                ua2: UserAuth, now2: real, l: Location)
    requires Auth.IsAuthenticated(ua1, now1) == Auth.IsAuthenticated(ua2, now2)
    ensures PrivateRoute(p, ua1, now1, l) == PrivateRoute(p, ua2, now2, l)
    ensures GuestRoute(p, ua1, now1, l) == GuestRoute(p, ua2, now2, l)
  {
  }

  /** After a logout, private routes redirect and guest routes show their content. */
  lemma LoggedOutGuards<C, K, Rest>(p: Props<C, K>, s: State<Rest>, now: real, l: Location)
    ensures PrivateRoute(p, Reduce(s, LogoutUser).userAuth, now, l) == Redirect(RedirectPath(p), l)
    ensures GuestRoute(p, Reduce(s, LogoutUser).userAuth, now, l) == Content(p)
  {
  }
}
