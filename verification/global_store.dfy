/**
 `GlobalStoreService`: the UI state shared by all frontend modules, three
 signals written by setters.  Each signal is a field of an immutable
 record and each setter returns the next record.
 */
module GlobalStore {

  import opened Wrappers

  /** `UserInfo`: four named fields plus the index signature's extra entries. */
  datatype UserInfo = UserInfo(
    userId: string,
    userName: string,
    userEmail: string,
    userRole: string,
    extra: map<string, string>)

  datatype Theme = Light | Dark

  datatype GlobalState = GlobalState(user: Option<UserInfo>, isLoading: bool, theme: Theme)

  /** The signals' initial values. */
  function Initial(): (r: GlobalState)
    ensures r.user == None && !r.isLoading && r.theme == Light
  {
    GlobalState(None, false, Light)
  }

  function SetUser(s: GlobalState, userInfo: Option<UserInfo>): (r: GlobalState)
    ensures r.user == userInfo
    ensures r.isLoading == s.isLoading && r.theme == s.theme
  {
    s.(user := userInfo)
  }

  function SetLoading(s: GlobalState, loading: bool): (r: GlobalState)
    ensures r.isLoading == loading
    ensures r.user == s.user && r.theme == s.theme
  {
    s.(isLoading := loading)
  }

  function SetTheme(s: GlobalState, theme: Theme): (r: GlobalState)
    ensures r.theme == theme
    ensures r.user == s.user && r.isLoading == s.isLoading
  {
    s.(theme := theme)
  }

  /** Logout reset: forgets the user and the loading flag but keeps the theme. */
  function ClearState(s: GlobalState): (r: GlobalState)
    ensures r.user == None && !r.isLoading
    ensures r.theme == s.theme
  {
    SetLoading(SetUser(s, None), false)
  }

  lemma ClearStateIdempotent(s: GlobalState)
    ensures ClearState(ClearState(s)) == ClearState(s)
  {
  }

  /** After a reset, nothing set before it but the theme is observable. */
  lemma ClearStateForgetsSession(s: GlobalState, userInfo: Option<UserInfo>, loading: bool)
    ensures ClearState(SetLoading(SetUser(s, userInfo), loading)) == ClearState(s)
  {
  }

  /** Resetting from the initial state gives the initial state. */
  lemma ClearStateOfInitial()
    ensures ClearState(Initial()) == Initial()
  {
  }

  /** Setters of different fields commute. */
  lemma SettersCommute(s: GlobalState, userInfo: Option<UserInfo>, loading: bool, theme: Theme)
    ensures SetUser(SetLoading(s, loading), userInfo) == SetLoading(SetUser(s, userInfo), loading)
    ensures SetUser(SetTheme(s, theme), userInfo) == SetTheme(SetUser(s, userInfo), theme)
    ensures SetLoading(SetTheme(s, theme), loading) == SetTheme(SetLoading(s, loading), theme)
  {
  }

}
