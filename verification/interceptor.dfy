/**
 The auth interceptor as a pure transition system.  The source keeps its
 state in module-level variables (`activeExcludedPaths`, `isRefreshing`,
 the `refreshTokenSubject` BehaviorSubject) and reacts through rxjs
 pipelines; here every piece of that state is a field of `State` and every
 reaction is a function from one state to the next.

 A request that fails with an authentication error becomes a `Waiter`
 subscribed to the single-slot subject.  The first waiter of a refresh cycle
 is its `Initiator` (it raised `AUTH_TOKEN_EXPIRED` and carries the
 `finalize` handler); later ones are `Joiner`s.  When the host publishes a
 value, each waiter is released once: replayed with the new token, or
 dropped on the cancel marker.  A replayed initiator stays in `replaying`
 until its replay terminates, which is when its `finalize` runs.
 */
module AuthInterceptor {

  import opened Wrappers
  import ErrorCodes
  import Storage
  import Strings
  import Exclusion

  /** The value `cancelTokenRefresh` publishes on the subject. */
  const CancelRefreshToken: string := "CANCEL_REFRESH_TOKEN"

  const AuthorizationHeader: string := "Authorization"

  /** The error a waiter released by the cancel marker fails with. */
  const CancelledMessage: string := "Refresh process was cancelled. Request dropped."

  /** The parts of an `HttpRequest` the interceptor reads or writes. */
  datatype Request = Request(url: string, headers: map<string, string>)

  /** The `CustomEvent`s dispatched on `window` for the host application. */
  datatype Event = AuthTokenExpiredEvent | ForceLogoutEvent

  /** The event type string the host listens for. */
  function EventName(e: Event): string
  {
    match e
    case AuthTokenExpiredEvent => "AUTH_TOKEN_EXPIRED"
    case ForceLogoutEvent => "FORCE_LOGOUT"
  }

  /** The host can tell the two events apart by their type string alone. */
  lemma EventNameDistinguishes(e1: Event, e2: Event)
    ensures EventName(e1) == EventName(e2) <==> e1 == e2
  {
  }

  datatype Role = Initiator | Joiner

  /** A request suspended on the subject, tagged with the cycle it joined. */
  datatype Waiter = Waiter(request: Request, role: Role, cycle: nat)

  /**
   - `excluded`: `activeExcludedPaths`
   - `refreshing`: `isRefreshing`
   - `slot`: the subject's current value (`None` is null)
   - `emitted`: every event dispatched so far, in order
   - `waiters`: requests suspended on the subject, in subscription order
   - `replaying`: released waiters whose replay has not terminated yet
   - `cycle`: how many refresh cycles have been opened
   */
  datatype State = State(
    excluded: seq<string>,
    refreshing: bool,
    slot: Option<string>,
    emitted: seq<Event>,
    waiters: seq<Waiter>,
    replaying: seq<Waiter>,
    cycle: nat)

  /** Module load: empty list, flag down, subject holding null. */
  function Init(): (r: State)
    ensures r.excluded == [] && !r.refreshing && r.slot == None
    ensures r.emitted == [] && r.waiters == [] && r.replaying == [] && r.cycle == 0
  {
    State([], false, None, [], [], [], 0)
  }

  /**
   `req.clone({ setHeaders: { Authorization: "Bearer " + token } })`: sets
   one header, overwriting an earlier value, and touches nothing else.
   */
  function WithBearer(req: Request, token: string): (r: Request)
    ensures r.url == req.url
    ensures AuthorizationHeader in r.headers && r.headers[AuthorizationHeader] == "Bearer " + token
    ensures forall h :: h != AuthorizationHeader ==> (h in r.headers <==> h in req.headers)
    ensures forall h :: h != AuthorizationHeader && h in req.headers ==> r.headers[h] == req.headers[h]
  {
    req.(headers := req.headers[AuthorizationHeader := "Bearer " + token])
  }

  /**
   `StorageUtil.getAccessToken() || " "`: the stored token, or a single space
   when it is absent or empty (both falsy).
   */
  function Credential(store: Storage.Store): (t: string)
    ensures t != ""
    ensures Storage.AccessTokenKey in store && store[Storage.AccessTokenKey] != "" ==> t == store[Storage.AccessTokenKey]
    ensures Storage.AccessTokenKey !in store || store[Storage.AccessTokenKey] == "" ==> t == " "
  {
    match Storage.GetAccessToken(store)
    case Some(v) => if v != "" then v else " "
    case None => " "
  }

  /** A request handed to `next`, remembering whether it was excluded. */
  datatype Sent = Sent(request: Request, dispatched: Request, excluded: bool)

  /**
   The outbound half of `authInterceptor`: an excluded request goes out
   unmodified, any other one with `Bearer <credential>`.  The state is only
   read.
   */
  function Intercept(s: State, store: Storage.Store, req: Request): (r: Sent)
    ensures r.request == req
    ensures r.excluded <==> exists k :: 0 <= k < |s.excluded| && Strings.IsSubstring(s.excluded[k], req.url)
    ensures r.excluded ==> r.dispatched == req
    ensures !r.excluded ==> r.dispatched.url == req.url
    ensures !r.excluded ==> r.dispatched.headers == req.headers[AuthorizationHeader := "Bearer " + Credential(store)]
  {
    var excluded := Exclusion.IsExcluded(s.excluded, req.url);
    if excluded then Sent(req, req, true)
    else Sent(req, WithBearer(req, Credential(store)), false)
  }

  /** An `HttpErrorResponse`: its status and `error.status.code`, if any. */
  datatype HttpError = HttpError(status: int, code: Option<string>)

  /** What `catchError` does with a failure. */
  datatype Decision = ForceLogout(error: HttpError) | Enqueue | Rethrow(error: HttpError)

  /**
   Error classification: an invalid refresh token forces logout (checked
   first, so even a 401 or an excluded request gets it); a 401 or an expired
   access token on a non-excluded request enters the refresh sequence;
   anything else is rethrown.  Both non-waiting outcomes rethrow the
   original error.
   */
  function Classify(err: HttpError, excluded: bool): (d: Decision)
    ensures d.ForceLogout? <==> err.code == Some(ErrorCodes.RefreshTokenInvalid)
    ensures d.Enqueue? <==>
      && err.code != Some(ErrorCodes.RefreshTokenInvalid)
      && (err.status == ErrorCodes.UnauthorizedStatus || err.code == Some(ErrorCodes.AccessTokenExpired))
      && !excluded
    ensures !d.Enqueue? ==> d.error == err
  {
    if err.code == Some(ErrorCodes.RefreshTokenInvalid) then ForceLogout(err)
    else
      var expired := err.status == ErrorCodes.UnauthorizedStatus || err.code == Some(ErrorCodes.AccessTokenExpired);
      if expired && !excluded then Enqueue else Rethrow(err)
  }

  /**
   `handle401Error`: with no refresh in flight, raise the flag, reset the
   subject to null, dispatch `AUTH_TOKEN_EXPIRED` and subscribe as the new
   cycle's initiator; otherwise subscribe silently as a joiner.
   */
  function Handle401(s: State, req: Request): (r: State)
    ensures r.refreshing && r.excluded == s.excluded && r.replaying == s.replaying
    ensures !s.refreshing ==>
      && r.slot == None
      && r.emitted == s.emitted + [AuthTokenExpiredEvent]
      && r.cycle == s.cycle + 1
      && r.waiters == s.waiters + [Waiter(req, Initiator, s.cycle + 1)]
    ensures s.refreshing ==>
      && r.slot == s.slot && r.emitted == s.emitted && r.cycle == s.cycle
      && r.waiters == s.waiters + [Waiter(req, Joiner, s.cycle)]
  {
    if !s.refreshing then
      var cycle := s.cycle + 1;
      s.(refreshing := true, slot := None, emitted := s.emitted + [AuthTokenExpiredEvent],
         waiters := s.waiters + [Waiter(req, Initiator, cycle)], cycle := cycle)
    else
      s.(waiters := s.waiters + [Waiter(req, Joiner, s.cycle)])
  }

  datatype ErrorStep = ErrorStep(state: State, decision: Decision)

  /**
   The `catchError` handler for a failure of `sent`.  Only an enqueued
   failure touches the refresh state; an excluded request never does.
   */
  function OnError(s: State, sent: Sent, err: HttpError): (r: ErrorStep)
    ensures r.decision == Classify(err, sent.excluded)
    ensures r.decision.ForceLogout? ==> r.state == s.(emitted := s.emitted + [ForceLogoutEvent])
    ensures r.decision.Rethrow? ==> r.state == s
    ensures r.decision.Enqueue? ==> r.state == Handle401(s, sent.dispatched)
    ensures sent.excluded ==>
      && r.state.waiters == s.waiters && r.state.refreshing == s.refreshing
      && r.state.cycle == s.cycle && AuthTokenExpiredEvent !in r.state.emitted[|s.emitted|..]
  {
    var d := Classify(err, sent.excluded);
    match d
    case ForceLogout(_) => ErrorStep(s.(emitted := s.emitted + [ForceLogoutEvent]), d)
    case Enqueue => ErrorStep(Handle401(s, sent.dispatched), d)
    case Rethrow(_) => ErrorStep(s, d)
  }

  /** How one waiter ends when the subject yields its first non-null value. */
  datatype Release = Replay(waiter: Waiter, request: Request) | Drop(waiter: Waiter, message: string)

  /**
   The `filter`/`take(1)`/`switchMap` pipeline applied to every waiter: the
   cancel marker drops it, any other token replays its request once with
   `Bearer <token>`.
   */
  function ReleaseAll(waiters: seq<Waiter>, token: string): (r: seq<Release>)
    ensures |r| == |waiters|
    ensures forall i :: 0 <= i < |r| ==> r[i].waiter == waiters[i]
    ensures token == CancelRefreshToken ==> forall i :: 0 <= i < |r| ==> r[i] == Drop(waiters[i], CancelledMessage)
    ensures token != CancelRefreshToken ==>
      forall i :: 0 <= i < |r| ==> r[i] == Replay(waiters[i], WithBearer(waiters[i].request, token))
  {
    if |waiters| == 0 then []
    else
      var first :=
        if token == CancelRefreshToken then Drop(waiters[0], CancelledMessage)
        else Replay(waiters[0], WithBearer(waiters[0].request, token));
      [first] + ReleaseAll(waiters[1..], token)
  }

  datatype Resolution = Resolution(state: State, released: seq<Release>)

  /**
   `notifyTokenRefreshed(token)`: publish `token`, releasing every waiter
   exactly once, then lower the flag.  Replayed waiters move to `replaying`;
   dropped ones are finished (a dropped initiator's `finalize` runs at once
   and lowers the flag, which is lowered anyway).  Publishing the cancel
   marker string this way acts exactly as `cancelTokenRefresh`.
   */
  function Notify(s: State, token: string): (r: Resolution)
    ensures r.state.slot == Some(token) && !r.state.refreshing && r.state.waiters == []
    ensures r.state.excluded == s.excluded && r.state.emitted == s.emitted && r.state.cycle == s.cycle
    ensures |r.released| == |s.waiters|
    ensures forall i :: 0 <= i < |r.released| ==> r.released[i].waiter == s.waiters[i]
    ensures token != CancelRefreshToken ==>
      && (forall i :: 0 <= i < |r.released| ==>
            && r.released[i].Replay?
            && r.released[i].request.url == s.waiters[i].request.url
            && AuthorizationHeader in r.released[i].request.headers
            && r.released[i].request.headers[AuthorizationHeader] == "Bearer " + token)
      && r.state.replaying == s.replaying + s.waiters
    ensures token == CancelRefreshToken ==>
      && (forall i :: 0 <= i < |r.released| ==> r.released[i] == Drop(s.waiters[i], CancelledMessage))
      && r.state.replaying == s.replaying
  {
    var released := ReleaseAll(s.waiters, token);
    var replaying := if token == CancelRefreshToken then s.replaying else s.replaying + s.waiters;
    Resolution(s.(slot := Some(token), waiters := [], replaying := replaying, refreshing := false), released)
  }

  /**
   `cancelTokenRefresh`: publish the cancel marker.  Every waiter fails with
   the cancellation error, none is replayed, and the flag goes down.
   */
  function Cancel(s: State): (r: Resolution)
    ensures r.state.slot == Some(CancelRefreshToken) && !r.state.refreshing && r.state.waiters == []
    ensures r.state.replaying == s.replaying && r.state.emitted == s.emitted
    ensures r.state.excluded == s.excluded && r.state.cycle == s.cycle
    ensures |r.released| == |s.waiters|
    ensures forall i :: 0 <= i < |r.released| ==> r.released[i] == Drop(s.waiters[i], CancelledMessage)
  {
    Notify(s, CancelRefreshToken)
  }

  /** How a replayed request ended; the state does not depend on it. */
  datatype ReplayOutcome = Succeeded | Failed(error: HttpError)

  /** `s.replaying` without its `i`-th element. */
  function RemoveAt(ws: seq<Waiter>, i: nat): (r: seq<Waiter>)
    requires i < |ws|
    ensures |r| == |ws| - 1
    ensures forall k :: 0 <= k < i ==> r[k] == ws[k]
    ensures forall k :: i <= k < |r| ==> r[k] == ws[k + 1]
  {
    ws[..i] + ws[i + 1..]
  }

  /**
   The `finalize` handler as written: an initiator's termination clears the
   flag unconditionally, whichever cycle is in flight.
   */
  function FinalizeAsWritten(s: State): (r: State)
    ensures !r.refreshing
    ensures r.(refreshing := s.refreshing) == s
  {
    s.(refreshing := false)
  }

  /**
   The corrected `finalize`: an initiator clears the flag only while the
   cycle it opened is still the current one.
   */
  function Finalize(s: State, w: Waiter): (r: State)
    ensures w.cycle == s.cycle ==> r == s.(refreshing := false)
    ensures w.cycle != s.cycle ==> r == s
  {
    if w.cycle == s.cycle then s.(refreshing := false) else s
  }

  /**
   The `i`-th in-flight replay terminates.  Its outcome goes straight to the
   caller: a failed replay is not classified again and opens no refresh.
   Only an initiator's termination runs `finalize`.
   */
  function ReplayTerminatesAsWritten(s: State, i: nat, outcome: ReplayOutcome): (r: State)
    requires i < |s.replaying|
    ensures r.replaying == RemoveAt(s.replaying, i)
    ensures r.waiters == s.waiters && r.emitted == s.emitted && r.slot == s.slot && r.cycle == s.cycle
    ensures r.excluded == s.excluded
    ensures r.refreshing == (s.refreshing && s.replaying[i].role.Joiner?)
  {
    var w := s.replaying[i];
    var s1 := s.(replaying := RemoveAt(s.replaying, i));
    if w.role.Initiator? then FinalizeAsWritten(s1) else s1
  }

  /** As `ReplayTerminatesAsWritten`, with the corrected `finalize`. */
  function ReplayTerminates(s: State, i: nat, outcome: ReplayOutcome): (r: State)
    requires i < |s.replaying|
    ensures r.replaying == RemoveAt(s.replaying, i)
    ensures r.waiters == s.waiters && r.emitted == s.emitted && r.slot == s.slot && r.cycle == s.cycle
    ensures r.excluded == s.excluded
    ensures r.refreshing == (s.refreshing && (s.replaying[i].role.Joiner? || s.replaying[i].cycle != s.cycle))
  {
    var w := s.replaying[i];
    var s1 := s.(replaying := RemoveAt(s.replaying, i));
    if w.role.Initiator? then Finalize(s1, w) else s1
  }

  /**
   A failed replay leaves the same state as a successful one.  This holds
   by construction: the outcome only reaches the original caller, and the
   model has no action that feeds a failed replay back into `OnError`.
   */
  lemma ReplayOutcomeIrrelevant(s: State, i: nat, err: HttpError)
    requires i < |s.replaying|
    ensures ReplayTerminates(s, i, Failed(err)) == ReplayTerminates(s, i, Succeeded)
  {
  }

}
