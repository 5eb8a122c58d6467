/**
 `noAuthGuard` and `createNoAuthGuard`: the inverse guards, for routes such
 as the login page that only make sense without a session.
 */
module NoAuthGuards {

  import opened Wrappers
  import Storage
  import AuthGuards

  /** Where `noAuthGuard`, and `createNoAuthGuard` by default, redirects. */
  const DefaultNoAuthRedirect: string := "/homePage"

  /** `noAuthGuard`: with a session navigate to `/homePage` and deny, else allow. */
  function NoAuthGuard(store: Storage.Store): (r: AuthGuards.GuardResult)
    ensures r.allow <==> !AuthGuards.HasSession(store)
    ensures r.allow ==> r.navigateTo == None
    ensures !r.allow ==> r.navigateTo == Some("/homePage")
  {
    if AuthGuards.IsLoggedIn(Storage.GetAccessToken(store)) then AuthGuards.GuardResult(false, Some(DefaultNoAuthRedirect))
    else AuthGuards.GuardResult(true, None)
  }

  /** `createNoAuthGuard(redirectUrl)`: the same test, redirecting to `redirectUrl`. */
  function CreateNoAuthGuard(store: Storage.Store, redirectUrl: string := DefaultNoAuthRedirect): (r: AuthGuards.GuardResult)
    ensures r.allow <==> !AuthGuards.HasSession(store)
    ensures r.allow ==> r.navigateTo == None
    ensures !r.allow ==> r.navigateTo == Some(redirectUrl)
  {
    if AuthGuards.IsLoggedIn(Storage.GetAccessToken(store)) then AuthGuards.GuardResult(false, Some(redirectUrl))
    else AuthGuards.GuardResult(true, None)
  }

  /** The two guards are exact complements on every store. */
  lemma NoAuthGuardComplementsAuthGuard(store: Storage.Store)
    ensures NoAuthGuard(store).allow == !AuthGuards.AuthGuard(store).allow
    ensures CreateNoAuthGuard(store).allow == !AuthGuards.CreateAuthGuard(store).allow
  {
  }

  /** Exactly one of the two guards navigates, whatever is stored. */
  lemma ExactlyOneGuardNavigates(store: Storage.Store)
    ensures NoAuthGuard(store).navigateTo.Some? != AuthGuards.AuthGuard(store).navigateTo.Some?
  {
  }

  /** With no argument the factory builds the default guard. */
  lemma CreateNoAuthGuardDefault(store: Storage.Store)
    ensures CreateNoAuthGuard(store) == NoAuthGuard(store)
  {
  }

}
