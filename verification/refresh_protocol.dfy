/**
 The refresh protocol as a whole: the host and the network drive the
 interceptor through a sequence of `Action`s, in any interleaving.  This
 module states what holds of every such run: an invariant of the reachable
 states, the "one `AUTH_TOKEN_EXPIRED` per cycle" guarantee, the fate of a
 cohort of waiters, and the defect of the `finalize` handler as written.
 */
module RefreshProtocol {

  import opened Wrappers
  import ErrorCodes
  import Storage
  import Strings
  import Exclusion
  import opened AuthInterceptor

  /** One thing that can happen to the interceptor. */
  datatype Action =
    | Configured(config: Exclusion.Config)
    | PathsAdded(paths: seq<string>)
    | Errored(sent: Sent, err: HttpError)
    | Refreshed(token: string)
    | Cancelled
    | ReplayEnded(index: nat, outcome: ReplayOutcome)

  /** `notifyTokenRefreshed` and `cancelTokenRefresh` end a cycle; nothing else does. */
  predicate Resolves(a: Action)
  {
    a.Refreshed? || a.Cancelled?
  }

  /** One step, with the corrected `finalize`.  A replay that does not exist ends nothing. */
  function Step(s: State, a: Action): State
  {
    match a
    case Configured(config) => s.(excluded := Exclusion.Configure(s.excluded, config))
    case PathsAdded(paths) => s.(excluded := Exclusion.AddExcluded(s.excluded, paths))
    case Errored(sent, err) => OnError(s, sent, err).state
    case Refreshed(token) => Notify(s, token).state
    case Cancelled => Cancel(s).state
    case ReplayEnded(i, outcome) => if i < |s.replaying| then ReplayTerminates(s, i, outcome) else s
  }

  /** One step with `finalize` as the source writes it. */
  function StepAsWritten(s: State, a: Action): State
  {
    match a
    case ReplayEnded(i, outcome) => if i < |s.replaying| then ReplayTerminatesAsWritten(s, i, outcome) else s
    case _ => Step(s, a)
  }

  function Run(s: State, acts: seq<Action>): State
    decreases |acts|
  {
    if |acts| == 0 then s else Run(Step(s, acts[0]), acts[1..])
  }

  function RunAsWritten(s: State, acts: seq<Action>): State
    decreases |acts|
  {
    if |acts| == 0 then s else RunAsWritten(StepAsWritten(s, acts[0]), acts[1..])
  }

  /** Number of `AUTH_TOKEN_EXPIRED` events in a log. */
  function CountExpired(events: seq<Event>): nat
  {
    if |events| == 0 then 0
    else CountExpired(events[..|events| - 1]) + (if events[|events| - 1] == AuthTokenExpiredEvent then 1 else 0)
  }

  lemma CountExpiredAppend(events: seq<Event>, e: Event)
    ensures CountExpired(events + [e]) == CountExpired(events) + (if e == AuthTokenExpiredEvent then 1 else 0)
  {
  }

  /**
   The invariant of every reachable state:
   - the flag is up exactly while some request waits, and then the subject
     holds null, so a joiner never sees a stale value;
   - all waiters belong to the current cycle and the first one, only, is
     its initiator;
   - in-flight replays come from earlier or current cycles, and only from
     earlier ones while a cycle is open;
   - one `AUTH_TOKEN_EXPIRED` has been dispatched per cycle opened.
   */
  ghost predicate Inv(s: State)
  {
    && (s.refreshing <==> |s.waiters| > 0)
    && (s.refreshing ==> s.slot == None)
    && (forall k :: 0 <= k < |s.waiters| ==> s.waiters[k].cycle == s.cycle)
    && (forall k :: 0 <= k < |s.waiters| ==> (s.waiters[k].role.Initiator? <==> k == 0))
    && (forall k :: 0 <= k < |s.replaying| ==> s.replaying[k].cycle <= s.cycle)
    && (s.refreshing ==> forall k :: 0 <= k < |s.replaying| ==> s.replaying[k].cycle < s.cycle)
    && CountExpired(s.emitted) == s.cycle
  }

  lemma InitSatisfiesInv()
    ensures Inv(Init())
  {
  }

  lemma StepPreservesInv(s: State, a: Action)
    requires Inv(s)
    ensures Inv(Step(s, a))
  {
  }

  lemma {:induction false} RunPreservesInv(s: State, acts: seq<Action>)
    requires Inv(s)
    ensures Inv(Run(s, acts))
    decreases |acts|
  {
    if |acts| > 0 {
      StepPreservesInv(s, acts[0]);
      RunPreservesInv(Step(s, acts[0]), acts[1..]);
    }
  }

  /** Every state the interceptor can reach from module load satisfies `Inv`. */
  lemma ReachableSatisfiesInv(acts: seq<Action>)
    ensures Inv(Run(Init(), acts))
  {
    InitSatisfiesInv();
    RunPreservesInv(Init(), acts);
  }

  /**
   A step that is not a notify or cancel never lowers the flag, and
   dispatches `AUTH_TOKEN_EXPIRED` exactly when it raises it.
   */
  lemma StepOpensAtMostOneCycle(s: State, a: Action)
    requires Inv(s) && !Resolves(a)
    ensures s.refreshing ==> Step(s, a).refreshing
    ensures CountExpired(Step(s, a).emitted) ==
      CountExpired(s.emitted) + (if !s.refreshing && Step(s, a).refreshing then 1 else 0)
  {
  }

  /**
   However many requests fail, and whatever else happens in between, a run
   without notify or cancel dispatches `AUTH_TOKEN_EXPIRED` once if it opened
   a cycle and never otherwise.
   */
  lemma {:induction false} OneExpiryPerCycle(s: State, acts: seq<Action>)
    requires Inv(s)
    requires forall k :: 0 <= k < |acts| ==> !Resolves(acts[k])
    ensures s.refreshing ==> Run(s, acts).refreshing
    ensures CountExpired(Run(s, acts).emitted) ==
      CountExpired(s.emitted) + (if !s.refreshing && Run(s, acts).refreshing then 1 else 0)
    decreases |acts|
  {
    if |acts| > 0 {
      var s1 := Step(s, acts[0]);
      StepOpensAtMostOneCycle(s, acts[0]);
      StepPreservesInv(s, acts[0]);
      OneExpiryPerCycle(s1, acts[1..]);
    }
  }

  /** Each sent request failing with its own error, in order. */
  function Failures(sents: seq<Sent>, errs: seq<HttpError>): (r: seq<Action>)
    requires |errs| == |sents|
    ensures |r| == |sents|
    ensures forall k :: 0 <= k < |r| ==> r[k] == Errored(sents[k], errs[k])
  {
    if |sents| == 0 then [] else [Errored(sents[0], errs[0])] + Failures(sents[1..], errs[1..])
  }

  /**
   The two handlers differ only when a replay ends, so a run without a
   `ReplayEnded` action is the same under both.
   */
  lemma {:induction false} NoReplayEndedRunsAgree(s: State, acts: seq<Action>)
    requires forall k :: 0 <= k < |acts| ==> !acts[k].ReplayEnded?
    ensures RunAsWritten(s, acts) == Run(s, acts)
    decreases |acts|
  {
    if |acts| > 0 {
      assert !acts[0].ReplayEnded?;
      NoReplayEndedRunsAgree(Step(s, acts[0]), acts[1..]);
    }
  }

  /** An error that sends a non-excluded request into the refresh sequence. */
  predicate TriggersRefresh(err: HttpError)
  {
    && err.code != Some(ErrorCodes.RefreshTokenInvalid)
    && (err.status == ErrorCodes.UnauthorizedStatus || err.code == Some(ErrorCodes.AccessTokenExpired))
  }

  /** Failures of non-excluded requests append them, in order, as waiters of one cycle. */
  lemma {:induction false} FailuresJoinOneCycle(s: State, sents: seq<Sent>, errs: seq<HttpError>)
    requires Inv(s) && |errs| == |sents|
    requires forall k :: 0 <= k < |sents| ==> !sents[k].excluded && TriggersRefresh(errs[k])
    ensures var r := Run(s, Failures(sents, errs));
      && |r.waiters| == |s.waiters| + |sents|
      && r.waiters[..|s.waiters|] == s.waiters
      && (forall k :: 0 <= k < |sents| ==> r.waiters[|s.waiters| + k].request == sents[k].dispatched)
      && (|sents| > 0 ==> r.refreshing)
      && r.replaying == s.replaying
    decreases |sents|
  {
    if |sents| > 0 {
      var acts := Failures(sents, errs);
      assert acts[1..] == Failures(sents[1..], errs[1..]);
      var s1 := Step(s, acts[0]);
      assert s1 == Handle401(s, sents[0].dispatched);
      StepPreservesInv(s, acts[0]);
      FailuresJoinOneCycle(s1, sents[1..], errs[1..]);
      var r := Run(s, acts);
      assert r == Run(s1, acts[1..]);
      forall k | 0 <= k < |sents|
        ensures r.waiters[|s.waiters| + k].request == sents[k].dispatched
      {
        if k > 0 {
          assert sents[1..][k - 1] == sents[k];
        }
      }
    }
  }

  /**
   N concurrent failures from an idle interceptor: one `AUTH_TOKEN_EXPIRED`
   and N waiters.  A notify with token `t` then replays all N, each with
   `Bearer t`; a cancel drops all N and replays none.  Stated for the
   handler as written; no replay ends during the run, so the corrected
   handler reaches the same state.
   */
  lemma ConcurrentFailuresShareOneRefresh(s: State, sents: seq<Sent>, errs: seq<HttpError>, t: string)
    requires Inv(s) && !s.refreshing && |errs| == |sents| && |sents| > 0
    requires forall k :: 0 <= k < |sents| ==> !sents[k].excluded && TriggersRefresh(errs[k])
    ensures RunAsWritten(s, Failures(sents, errs)) == Run(s, Failures(sents, errs))
    ensures var r := RunAsWritten(s, Failures(sents, errs));
      && CountExpired(r.emitted) == CountExpired(s.emitted) + 1
      && |r.waiters| == |sents|
      && (t != CancelRefreshToken ==>
            var n := Notify(r, t);
            && !n.state.refreshing
            && |n.released| == |sents|
            && forall k :: 0 <= k < |sents| ==>
                 && n.released[k].Replay?
                 && n.released[k].request.url == sents[k].dispatched.url
                 && AuthorizationHeader in n.released[k].request.headers
                 && n.released[k].request.headers[AuthorizationHeader] == "Bearer " + t)
      && (var c := Cancel(r);
          && !c.state.refreshing
          && |c.released| == |sents|
          && forall k :: 0 <= k < |sents| ==> c.released[k].Drop?)
  {
    var acts := Failures(sents, errs);
    NoReplayEndedRunsAgree(s, acts);
    OneExpiryPerCycle(s, acts);
    FailuresJoinOneCycle(s, sents, errs);
  }

  /** Once released, a waiter is gone: a second notify or cancel releases nobody. */
  lemma ReleasedExactlyOnce(s: State, t1: string, t2: string)
    ensures Notify(Notify(s, t1).state, t2).released == []
    ensures Cancel(Notify(s, t1).state).released == []
  {
  }

  /** An excluded request that fails never waits and never opens a cycle. */
  lemma ExcludedNeverWaits(s: State, sent: Sent, err: HttpError)
    requires sent.excluded
    ensures var r := Step(s, Errored(sent, err));
      r.waiters == s.waiters && r.refreshing == s.refreshing && r.cycle == s.cycle
      && CountExpired(r.emitted) == CountExpired(s.emitted)
  {
    assert Step(s, Errored(sent, err)) == OnError(s, sent, err).state;
  }

  // ---------------------------------------------------------------------
  // The `finalize` handler as written.

  /** Three steps of a run, unfolded. */
  lemma RunThree(s: State, a0: Action, a1: Action, a2: Action)
    ensures Run(s, [a0, a1, a2]) == Step(Step(Step(s, a0), a1), a2)
    ensures RunAsWritten(s, [a0, a1, a2]) == StepAsWritten(StepAsWritten(StepAsWritten(s, a0), a1), a2)
    ensures RunAsWritten(s, [a0, a1, a2][..2]) == StepAsWritten(StepAsWritten(s, a0), a1)
  {
    assert [a0, a1, a2][1..] == [a1, a2];
    assert [a1, a2][1..] == [a2];
    assert [a2][1..] == [];
    assert [a0, a1, a2][..2] == [a0, a1];
    assert [a0, a1][1..] == [a1];
    assert [a1][1..] == [];
    var s1, s2 := Step(s, a0), Step(Step(s, a0), a1);
    assert Run(s, [a0, a1, a2]) == Run(s1, [a1, a2]) == Run(s2, [a2]) == Run(Step(s2, a2), []);
    var w1, w2 := StepAsWritten(s, a0), StepAsWritten(StepAsWritten(s, a0), a1);
    assert RunAsWritten(s, [a0, a1, a2]) == RunAsWritten(w1, [a1, a2]) == RunAsWritten(w2, [a2])
      == RunAsWritten(StepAsWritten(w2, a2), []);
    assert RunAsWritten(s, [a0, a1]) == RunAsWritten(w1, [a1]) == RunAsWritten(w2, []);
  }

  /**
   With `finalize` as written, an initiator whose replay outlives its cycle
   lowers the flag of the next cycle: a 401, then that replay ending, then
   another 401 dispatch `AUTH_TOKEN_EXPIRED` twice with no notify or cancel
   in between, and requests are left waiting under a lowered flag.
   */
  lemma StaleFinalizeReopensCycle(s: State, i: nat, outcome: ReplayOutcome, b: Sent, c: Sent, err: HttpError)
    requires Inv(s) && !s.refreshing
    requires i < |s.replaying| && s.replaying[i].role.Initiator?
    requires !b.excluded && !c.excluded && TriggersRefresh(err)
    ensures var acts := [Errored(b, err), ReplayEnded(i, outcome), Errored(c, err)];
      && (forall k :: 0 <= k < |acts| ==> !Resolves(acts[k]))
      && !Inv(RunAsWritten(s, acts[..2]))
      && CountExpired(RunAsWritten(s, acts).emitted) == CountExpired(s.emitted) + 2
  {
    var a0, a1, a2 := Errored(b, err), ReplayEnded(i, outcome), Errored(c, err);
    RunThree(s, a0, a1, a2);
    var w1 := StepAsWritten(s, a0);
    assert w1 == Handle401(s, b.dispatched);
    CountExpiredAppend(s.emitted, AuthTokenExpiredEvent);
    var w2 := StepAsWritten(w1, a1);
    assert w2 == ReplayTerminatesAsWritten(w1, i, outcome);
    assert !w2.refreshing && |w2.waiters| == 1;
    assert w2.emitted == w1.emitted;
    var w3 := StepAsWritten(w2, a2);
    assert w3 == Handle401(w2, c.dispatched);
    CountExpiredAppend(w2.emitted, AuthTokenExpiredEvent);
  }

  /** For the same actions the corrected handler dispatches `AUTH_TOKEN_EXPIRED` once. */
  lemma CorrectedFinalizeKeepsCycle(s: State, i: nat, outcome: ReplayOutcome, b: Sent, c: Sent, err: HttpError)
    requires Inv(s) && !s.refreshing
    requires i < |s.replaying| && s.replaying[i].role.Initiator?
    requires !b.excluded && !c.excluded && TriggersRefresh(err)
    ensures var r := Run(s, [Errored(b, err), ReplayEnded(i, outcome), Errored(c, err)]);
      && Inv(r) && r.refreshing && |r.waiters| == 2
      && CountExpired(r.emitted) == CountExpired(s.emitted) + 1
  {
    var a0, a1, a2 := Errored(b, err), ReplayEnded(i, outcome), Errored(c, err);
    RunThree(s, a0, a1, a2);
    var acts := [a0, a1, a2];
    assert forall k :: 0 <= k < |acts| ==> !Resolves(acts[k]);
    OneExpiryPerCycle(s, acts);
    RunPreservesInv(s, acts);
    var c1 := Step(s, a0);
    assert c1 == Handle401(s, b.dispatched);
    StepPreservesInv(s, a0);
    var c2 := Step(c1, a1);
    assert c2 == ReplayTerminates(c1, i, outcome);
    assert c2.refreshing && |c2.waiters| == 1;
    var c3 := Step(c2, a2);
    assert c3 == Handle401(c2, c.dispatched);
  }

  /**
   In a reachable state the corrected handler never changes the flag: while a
   cycle is open every in-flight replay is from an older cycle, and once it
   is closed the flag is already down.
   */
  lemma CorrectedFinalizeNeverChangesFlag(s: State, i: nat, outcome: ReplayOutcome)
    requires Inv(s) && i < |s.replaying|
    ensures ReplayTerminates(s, i, outcome).refreshing == s.refreshing
  {
  }

  /**
   The states `StaleFinalizeReopensCycle` starts from are reachable under
   the handler as written: one 401, then a notify.
   */
  lemma StaleFinalizeReachable(req: Request, t: string)
    requires t != CancelRefreshToken
    ensures var s := RunAsWritten(Init(), [Errored(Sent(req, req, false), HttpError(401, None)), Refreshed(t)]);
      && Inv(s) && !s.refreshing && |s.replaying| == 1 && s.replaying[0].role.Initiator?
  {
    var acts := [Errored(Sent(req, req, false), HttpError(401, None)), Refreshed(t)];
    NoReplayEndedRunsAgree(Init(), acts);
    ReachableSatisfiesInv(acts);
    var s1 := Step(Init(), acts[0]);
    assert s1 == Handle401(Init(), req);
    var s2 := Step(s1, acts[1]);
    assert s2 == Notify(s1, t).state;
    assert acts[1..] == [acts[1]];
    assert [acts[1]][1..] == [];
    assert Run(Init(), acts) == Run(s1, [acts[1]]) == Run(s2, []) == s2;
  }

  // ---------------------------------------------------------------------
  // End-to-end scenarios.

  /** A request to `/orders` with stored token `abc` and no exclusions carries `Bearer abc`. */
  lemma OrdersCarriesStoredToken()
    ensures var sent := Intercept(Init(), map[Storage.AccessTokenKey := "abc"], Request("/orders", map[]));
      && !sent.excluded
      && sent.dispatched.headers == map[AuthorizationHeader := "Bearer abc"]
  {
    var store := map[Storage.AccessTokenKey := "abc"];
    assert Credential(store) == "abc";
    assert "Bearer " + "abc" == "Bearer abc";
  }

  /** With `/login` excluded, a 401 on `/auth/login` is rethrown at once: no header, no wait, no event. */
  lemma ExcludedLoginRethrown(store: Storage.Store)
    ensures var s := Step(Init(), Configured(Exclusion.Config(Some(["/login"]))));
      var sent := Intercept(s, store, Request("/auth/login", map[]));
      var e := OnError(s, sent, HttpError(401, None));
      && sent.excluded && sent.dispatched == sent.request
      && e.decision == Rethrow(HttpError(401, None)) && e.state == s
  {
    var s := Step(Init(), Configured(Exclusion.Config(Some(["/login"]))));
    assert s.excluded == ["/login"];
    assert Strings.OccursAt("/auth/login", "/login", 5);
  }

}
