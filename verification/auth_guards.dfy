/**
 `authGuard` and `createAuthGuard`: route guards that let a navigation
 through only when a usable access token is stored, and otherwise send the
 user to a login route.  The guard reads the store and either allows the
 route or issues one navigation.
 */
module AuthGuards {

  import opened Wrappers
  import Storage
  import Strings

  /** A guard's answer and the navigation it issued, if any. */
  datatype GuardResult = GuardResult(allow: bool, navigateTo: Option<string>)

  /** Where `authGuard`, and `createAuthGuard` by default, redirects. */
  const DefaultAuthRedirect: string := "/auth"

  /** A session exists: an access token is stored and it is not blank. */
  ghost predicate HasSession(store: Storage.Store)
  {
    Storage.AccessTokenKey in store && Strings.HasNonWhitespace(store[Storage.AccessTokenKey])
  }

  /**
   The test both guard files apply, `token && token.trim().length > 0`: null
   and the empty string are falsy, and a non-empty token must keep a
   character after trimming.
   */
  function IsLoggedIn(token: Option<string>): (r: bool)
    ensures r <==> token.Some? && Strings.HasNonWhitespace(token.value)
  {
    token.Some? && token.value != "" && |Strings.Trim(token.value)| > 0
  }

  /** `authGuard`: allow with a session, else navigate to `/auth` and deny. */
  function AuthGuard(store: Storage.Store): (r: GuardResult)
    ensures r.allow <==> HasSession(store)
    ensures r.allow ==> r.navigateTo == None
    ensures !r.allow ==> r.navigateTo == Some("/auth")
  {
    if IsLoggedIn(Storage.GetAccessToken(store)) then GuardResult(true, None)
    else GuardResult(false, Some(DefaultAuthRedirect))
  }

  /** `createAuthGuard(redirectUrl)`: the same test, redirecting to `redirectUrl`. */
  function CreateAuthGuard(store: Storage.Store, redirectUrl: string := DefaultAuthRedirect): (r: GuardResult)
    ensures r.allow <==> HasSession(store)
    ensures r.allow ==> r.navigateTo == None
    ensures !r.allow ==> r.navigateTo == Some(redirectUrl)
  {
    if IsLoggedIn(Storage.GetAccessToken(store)) then GuardResult(true, None)
    else GuardResult(false, Some(redirectUrl))
  }

  /** A custom guard decides exactly as the default one does. */
  lemma CreateAuthGuardSameDecision(store: Storage.Store, redirectUrl: string)
    ensures CreateAuthGuard(store, redirectUrl).allow == AuthGuard(store).allow
  {
  }

  /** With no argument the factory builds the default guard. */
  lemma CreateAuthGuardDefault(store: Storage.Store)
    ensures CreateAuthGuard(store) == AuthGuard(store)
  {
  }

}
