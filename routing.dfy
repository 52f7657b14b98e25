/**
 * The `$routeChangeStart` listener registered in `app.run`: the guard's two
 * redirect conditions, followed by a refresh of the current user whenever the
 * stored flag says someone is logged in.
 */
module Routing {
  import opened Common
  import opened Storage
  import opened Directory
  import opened Auth
  import opened Users

  const ContactListPath: string := "/contact-list"

  /** A route definition as configured: its path and whether it needs a login. */
  datatype RouteDef = RouteDef(originalPath: string, authenticate: bool)

  /** The route being entered; `route` is its `$$route`, absent for unmatched paths. */
  datatype NextRoute = NextRoute(route: Option<RouteDef>)

  /** The event object AngularJS passes first to every `$on` listener. */
  datatype RouteChangeEvent = RouteChangeEvent(name: string, defaultPrevented: bool)

  /** `event.$$route`: the event object has no such property, so it is always undefined. */
  function EventRoute(event: RouteChangeEvent): Option<RouteDef> {
    None
  }

  predicate NeedsLogin(route: Option<RouteDef>) {
    route.Some? && route.value.authenticate
  }

  predicate IsSignInRoute(route: Option<RouteDef>) {
    route.Some? && route.value.originalPath == SignInPath
  }

  /**
   * The path the guard finally sets, if any. Both conditions are checked in
   * turn and a later `$location.path` call would override an earlier one.
   */
  function GuardDecision(route: Option<RouteDef>, loggedIn: bool): (r: Option<string>)
    ensures r == Some(SignInPath) <==> NeedsLogin(route) && !loggedIn
    ensures r == Some(ContactListPath) <==> IsSignInRoute(route) && loggedIn
    ensures r == None <==> !(NeedsLogin(route) && !loggedIn) && !(IsSignInRoute(route) && loggedIn)
  {
    var first := if route.Some? && route.value.authenticate && !loggedIn then Some(SignInPath) else None;
    if route.Some? && route.value.originalPath == SignInPath && loggedIn then Some(ContactListPath) else first
  }

  /** The two redirects never both fire, so neither overrides the other. */
  lemma RedirectsExclusive(route: Option<RouteDef>, loggedIn: bool)
    ensures !(NeedsLogin(route) && !loggedIn && IsSignInRoute(route) && loggedIn)
  {
  }

  /**
   * The listener's body with `next.$$route` given as `route`. Every
   * `isLoggedIn()` call re-reads the store, which nothing here writes before
   * the last of them.
   */
  method RunGuard(svc: UserService, route: Option<RouteDef>) returns (redirect: Option<string>)
    requires svc.Valid()
    modifies svc, svc.auth, svc.store
    ensures svc.Valid()
    ensures redirect == GuardDecision(route, StoredFlag(old(svc.store.items)))
    ensures svc.auth.loggedIn == StoredFlag(old(svc.store.items))
    ensures svc.users == old(svc.users) && svc.currentContact == old(svc.currentContact)
    ensures svc.current == if StoredFlag(old(svc.store.items)) then Refreshed(svc.users, old(svc.current)) else old(svc.current)
    ensures !StoredFlag(old(svc.store.items)) || old(svc.current).None? ==> svc.store.items == old(svc.store.items)
    ensures StoredFlag(old(svc.store.items)) && old(svc.current).Some? ==>
              svc.store.items == old(svc.store.items)[CurrentUserKey := UserEntry(Some(UserRecordOf(svc.users[svc.current.value])))]
  {
    redirect := None;
    if route.Some? && route.value.authenticate {
      var loggedIn := svc.auth.IsLoggedIn();
      if !loggedIn {
        redirect := Some(SignInPath);
      }
    }
    if route.Some? && route.value.originalPath == SignInPath {
      var loggedIn := svc.auth.IsLoggedIn();
      if loggedIn {
        redirect := Some(ContactListPath);
      }
    }
    var loggedIn := svc.auth.IsLoggedIn();
    if loggedIn {
      svc.SetCurrentUserContacts();
    }
  }

  /** The listener as registered, `function (next)`: its parameter receives the event, not the next route. */
  method OnRouteChangeStartAsWritten(svc: UserService, event: RouteChangeEvent, next: NextRoute) returns (redirect: Option<string>)
    requires svc.Valid()
    modifies svc, svc.auth, svc.store
    ensures svc.Valid()
    ensures redirect == None
    ensures redirect == GuardDecision(EventRoute(event), StoredFlag(old(svc.store.items)))
    ensures svc.auth.loggedIn == StoredFlag(old(svc.store.items))
    ensures svc.users == old(svc.users) && svc.currentContact == old(svc.currentContact)
    ensures svc.current == if StoredFlag(old(svc.store.items)) then Refreshed(svc.users, old(svc.current)) else old(svc.current)
    ensures !StoredFlag(old(svc.store.items)) || old(svc.current).None? ==> svc.store.items == old(svc.store.items)
    ensures StoredFlag(old(svc.store.items)) && old(svc.current).Some? ==>
              svc.store.items == old(svc.store.items)[CurrentUserKey := UserEntry(Some(UserRecordOf(svc.users[svc.current.value])))]
  {
    redirect := RunGuard(svc, EventRoute(event));
  }

  /** The listener as evidently intended, `function (event, next)`: the guard sees the next route. */
  method OnRouteChangeStart(svc: UserService, event: RouteChangeEvent, next: NextRoute) returns (redirect: Option<string>)
    requires svc.Valid()
    modifies svc, svc.auth, svc.store
    ensures svc.Valid()
    ensures redirect == GuardDecision(next.route, StoredFlag(old(svc.store.items)))
    ensures svc.auth.loggedIn == StoredFlag(old(svc.store.items))
    ensures svc.users == old(svc.users) && svc.currentContact == old(svc.currentContact)
    ensures svc.current == if StoredFlag(old(svc.store.items)) then Refreshed(svc.users, old(svc.current)) else old(svc.current)
    ensures !StoredFlag(old(svc.store.items)) || old(svc.current).None? ==> svc.store.items == old(svc.store.items)
    ensures StoredFlag(old(svc.store.items)) && old(svc.current).Some? ==>
              svc.store.items == old(svc.store.items)[CurrentUserKey := UserEntry(Some(UserRecordOf(svc.users[svc.current.value])))]
  {
    redirect := RunGuard(svc, next.route);
  }

  /** As wired, the guard redirects nobody, whatever the next route and the login state. */
  lemma MiswiredGuardNeverRedirects(event: RouteChangeEvent, loggedIn: bool)
    ensures GuardDecision(EventRoute(event), loggedIn) == None
  {
  }

  /**
   * A logged-out visit to the contact list: the intended guard sends it to
   * sign-in and the wired one does not. The app still redirects this visit,
   * because both protected routes call `requireLogin` in their `resolve` and
   * the listener has just refreshed the flag that call reads.
   */
  lemma MiswiredGuardAdmitsLoggedOutVisit(event: RouteChangeEvent)
    ensures GuardDecision(Some(RouteDef(ContactListPath, true)), false) == Some(SignInPath)
    ensures GuardDecision(EventRoute(event), false) == None
  {
  }

  /**
   * A logged-in visit to the sign-in page: the intended guard sends it on to
   * the contact list, the wired one leaves the user on the sign-in page.
   * Nothing else in the app makes this redirect.
   */
  lemma MiswiredGuardKeepsLoggedInOnSignIn(event: RouteChangeEvent)
    ensures GuardDecision(Some(RouteDef(SignInPath, false)), true) == Some(ContactListPath)
    ensures GuardDecision(EventRoute(event), true) == None
  {
  }
}
