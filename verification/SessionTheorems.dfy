/**
 The main results about the session manager, each for every reachable state
 or every step from one.
 */
module SessionTheorems {
  import opened SessionTypes
  import opened SessionSpec
  import opened SessionInvariant
  import ReplyProofs
  import opened ForwardProofs
  import opened SessionRuns

  ghost predicate Ends(run: seq<Session>, s: Session) {
    |run| > 0 && run[|run| - 1] == s
  }

  ghost predicate Reachable(s: Session) {
    exists run :: IsRun(run) && Ends(run, s)
  }

  lemma ReachableInv(s: Session)
    requires Reachable(s)
    ensures Inv(s)
  {
    var run :| IsRun(run) && Ends(run, s);
    RunInv(run, |run| - 1);
  }

  // ---------- How a step moves the session ----------

  /** The two events that can take a logout back: a reply asking to cancel, and a declined dialog. */
  ghost predicate Cancels(s: Session, e: Event)
    requires Enabled(s, e)
  {
    match e
    case ResponseEvent(_, _, _, cancel, _) => cancel && s.phase >= QUERY_END_SESSION
    case DialogAnsweredEvent(accept) => !accept && s.dialog.value.action.EndsSession()
    case _ => false
  }

  lemma RequestStepRises(s: Session, e: Event, env: Env)
    requires Enabled(s, e) && IsRequest(e)
    ensures Requests(s, Step(s, e, env), env)
  {
    if e.PrivilegesEvent? || e.ConfirmationEvent? {
      AnswerStepRises(s, e, env);
    } else {
      CallStepRises(s, e, env);
    }
  }

  /** The requests that come over D-Bus. */
  lemma CallStepRises(s: Session, e: Event, env: Env)
    requires Enabled(s, e) && (e.LogoutEvent? || e.ShutdownEvent? || e.RequestPowerEvent?)
    ensures Requests(s, Step(s, e, env), env)
  {
    var r := Step(s, e, env);
    match e
    case LogoutEvent(mode) =>
      LogoutRises(s, mode, env);
      assert r == LogoutCall(s, mode, env);
    case ShutdownEvent =>
      StandsRequests(s, ShutdownCall(s, env), env);
      assert r == ShutdownCall(s, env);
    case RequestPowerEvent(reboot, asked) =>
      PowerCallRises(s, reboot, asked, env);
      assert r == RequestPowerCall(s, reboot, asked, env);
  }

  /** The answers that requests wait for. */
  lemma AnswerStepRises(s: Session, e: Event, env: Env)
    requires Enabled(s, e) && (e.PrivilegesEvent? || e.ConfirmationEvent?)
    ensures Requests(s, Step(s, e, env), env)
  {
    var r := Step(s, e, env);
    match e
    case PrivilegesEvent(reboot, success, askLater) =>
      PrivilegesRise(s, reboot, success, askLater, env);
      assert r == PrivilegesCompleted(s, reboot, success, askLater, env);
    case ConfirmationEvent(answer, asked) =>
      ConfirmationRises(s, answer, asked, env);
      assert r == ConfirmationAnswered(s, answer, asked, env);
  }

  lemma PowerCallRises(s: Session, reboot: bool, asked: bool, env: Env)
    ensures Requests(s, RequestPowerCall(s, reboot, asked, env), env)
  {
    if s.phase == RUNNING {
      RequestPowerRises(s, reboot, asked, env);
    } else {
      StandsRequests(s, s, env);
    }
  }

  lemma LogoutRises(s: Session, mode: Option<LogoutMode>, env: Env)
    ensures Requests(s, LogoutCall(s, mode, env), env)
  {
    var r := LogoutCall(s, mode, env);
    if LogoutError(s, mode, env).None? && !(mode.value == Normal && env.logoutPrompt) {
      var s1 := s.(logoutMode := mode.value);
      assert r == Request(s1, Logout, env);
      RequestRises(s1, Logout, env);
      StandsThenRequests(s, s1, r, env);
    } else {
      StandsRequests(s, r, env);
    }
  }

  lemma PrivilegesRise(s: Session, reboot: bool, success: bool, askLater: bool, env: Env)
    ensures Requests(s, PrivilegesCompleted(s, reboot, success, askLater, env), env)
  {
    var s1 := s.(privileges := s.privileges - {reboot});
    if success {
      var t := if reboot then (if askLater then RebootInteract else Reboot)
               else (if askLater then ShutdownInteract else Shutdown);
      RequestRises(s1, t, env);
      StandsThenRequests(s, s1, Request(s1, t, env), env);
    } else {
      StandsRequests(s, s1, env);
    }
  }

  lemma ConfirmationRises(s: Session, answer: Confirmation, asked: bool, env: Env)
    ensures Requests(s, ConfirmationAnswered(s, answer, asked, env), env)
  {
    var s1 := s.(confirmation := false);
    var r := ConfirmationAnswered(s, answer, asked, env);
    match answer
    case Declined => StandsRequests(s, s1, env);
    case Confirmed(LogoutAction) =>
      RequestRises(s1.(logoutMode := NoConfirmation), Logout, env);
      StandsThenRequests(s, s1.(logoutMode := NoConfirmation), r, env);
    case Confirmed(RebootAction) =>
      RequestPowerRises(s1, true, asked, env);
      StandsThenRequests(s, s1, r, env);
    case Confirmed(ShutdownAction) =>
      RequestPowerRises(s1, false, asked, env);
      StandsThenRequests(s, s1, r, env);
    case Confirmed(action) =>
      SuspendStands(s1, action, env);
      StandsRequests(s, r, env);
  }

  lemma PowerStands(s: Session, action: LogoutAction, env: Env)
    ensures Stands(s, PowerAction(s, action, env))
  {
  }

  lemma ShowStands(s: Session, action: LogoutAction)
    ensures Stands(s, ShowInhibitDialog(s, action))
  {
    if s.dialog.Some? {
    } else {
    }
  }

  /** What decides whether a query can end is left alone. */
  ghost predicate QueryKept(s: Session, r: Session) {
    r.phase == s.phase && r.queryTimer == s.queryTimer && (s.dialog.Some? ==> r.dialog == s.dialog)
  }

  lemma PowerKeeps(s: Session, action: LogoutAction, env: Env)
    ensures QueryKept(s, PowerAction(s, action, env))
  {
  }

  lemma ShowKeeps(s: Session, action: LogoutAction)
    ensures QueryKept(s, ShowInhibitDialog(s, action))
  {
  }

  lemma SuspendKeeps(s: Session, action: LogoutAction, env: Env)
    requires !action.EndsSession()
    ensures QueryKept(s, RequestSuspend(s, action, env))
  {
    PowerKeeps(s, action, env);
    ShowKeeps(s, action);
  }

  lemma SuspendStands(s: Session, action: LogoutAction, env: Env)
    requires !action.EndsSession()
    ensures Stands(s, RequestSuspend(s, action, env))
  {
    PowerStands(s, action, env);
    ShowStands(s, action);
  }

  /** Every event but the first moves the session forward, or cancels; and only requests end a phase by request. */
  lemma StepForward(s: Session, e: Event, env: Env)
    requires Enabled(s, e) && !e.StartEvent? && !Cancels(s, e)
    ensures var r := Step(s, e, env);
            Rises(s, r, env) && (!IsRequest(e) ==> Unasked(s, r)) && (s.logoutMode == Force ==> Shrinks(s, r))
  {
    if IsRequest(e) {
      RequestStepRises(s, e, env);
    } else {
      OtherStepForward(s, e, env);
    }
  }

  lemma OtherStepForward(s: Session, e: Event, env: Env)
    requires Enabled(s, e) && !e.StartEvent? && !Cancels(s, e) && !IsRequest(e)
    ensures var r := Step(s, e, env);
            Forward(s, r, env) && (s.logoutMode == Force ==> Shrinks(s, r))
  {
    var r := Step(s, e, env);
    match e
    case AppSignalEvent(a) => AppSignalOnward(s, a, env);
    case PhaseTimeoutEvent => PhaseTimeoutOnward(s, env);
    case QueryTimeoutEvent(silent, cookies) => QueryTimeoutForward(s, silent, cookies, env);
    case ResponseEvent(c, ok, last, cancel, cookie) =>
      if s.phase < QUERY_END_SESSION {
        StandsOnward(s, r, env);
      } else {
        HandleResponseForward(s, c, ok, last, cookie, env);
      }
    case ConnectedEvent(c) => StandsOnward(s, r, env);
    case DisconnectedEvent(c) => ClientDisconnectedOnward(s, c, env);
    case BusNameLostEvent(bus, order) => BusNameLostOnward(s, bus, order, env);
    case BusDisconnectedEvent(order) => BusDisconnectedOnward(s, order, env);
    case InhibitEvent(appId, reason, flags, sender, cookie) =>
      if InhibitError(s, appId, reason, flags).Some? {
        StandsOnward(s, r, env);
      } else {
        AddForward(s, Inhibitor(cookie, None, Some(sender), flags), env);
      }
    case UninhibitEvent(cookie) => UninhibitOnward(s, cookie, env);
    case DialogAnsweredEvent(accept) =>
      if accept {
        AcceptOnward(s, env);
      } else {
        StandsOnward(s, r, env);
      }
  }

  lemma CancelForms(s: Session, e: Event, env: Env)
    requires Inv(s) && Enabled(s, e) && Cancels(s, e)
    ensures Step(s, e, env) == CancelEndSession(if e.ResponseEvent? then s else s.(dialog := None), env)
    ensures s.phase >= QUERY_END_SESSION
  {
  }

  // ---------- Cancelling ----------

  /** What `cancel_end_session` restores, field by field. */
  lemma CancelRestores(s: Session, env: Env)
    requires s.phase >= QUERY_END_SESSION
    ensures var r := CancelEndSession(s, env);
      && r.phase == RUNNING && r.logoutMode == Normal && r.logoutType == NoLogout
      && r.queryClients == multiset{} && r.nextQueryClients == [] && r.pendingApps == multiset{}
      && !r.phaseTimer && !r.queryTimer && r.dialog == None
      && r.clients == s.clients && r.apps == s.apps && r.handlers == s.handlers
      && (forall i :: i in r.inhibitors <==> i in s.inhibitors && s.inhibitors[i].owner == None)
      && (forall i :: i in r.inhibitors ==> r.inhibitors[i] == s.inhibitors[i])
      && r.idleEnabled == !AnyFlag(r.inhibitors, IDLE_FLAG)
      && r.history.cancelled == s.history.cancelled + [Reached(s, CancelMessage, env)]
      && r.history.departures == s.history.departures
  {
    assert CancelEndSession(s, env) == StartPhase(ReplyProofs.Cancelled(s, env), env);
  }

  /** A session that is not logging out has no JIT inhibitor, no list, and no session-ending dialog. */
  lemma QuietUnlessLoggingOut(s: Session)
    requires Reachable(s) && s.phase <= RUNNING
    ensures Jit(s.inhibitors) == {} && s.queryClients == multiset{} && s.nextQueryClients == []
    ensures s.dialog.Some? ==> !s.dialog.value.action.EndsSession()
  {
    ReachableInv(s);
  }

  // ---------- Unanimity ----------

  /** A departure from the query on everyone's consent. */
  ghost predicate Unanimous(d: Departure) {
    d.cause == QueryComplete && !d.inhibited && d.unresolved == {} && d.outstanding == multiset{}
  }

  /** A request begun earlier is granted or confirmed only now; nothing checks the phase then. */
  predicate Overtakes(e: Event) {
    match e
    case PrivilegesEvent(_, success, _) => success
    case ConfirmationEvent(Confirmed(LogoutAction), _) => true
    case ConfirmationEvent(Confirmed(RebootAction), asked) => !asked
    case ConfirmationEvent(Confirmed(ShutdownAction), asked) => !asked
    case _ => false
  }

  /** A request has ended the query that `s` was in, with the verdicts as they then stood. */
  ghost predicate EndedByRequest(s: Session, r: Session) {
    var n := |s.history.departures|;
    && r.phase > QUERY_END_SESSION && |r.history.departures| > n
    && r.history.departures[n].phase == QUERY_END_SESSION && r.history.departures[n].cause == Requested
    && r.history.departures[n].unresolved == s.history.Unresolved()
  }

  lemma RequestEndsQuery(s: Session, t: LogoutType, env: Env)
    requires s.phase == QUERY_END_SESSION
    ensures EndedByRequest(s, Request(s, t, env))
  {
    RequestRises(s, t, env);
    assert Requesting(s, t).history.Unresolved() == s.history.Unresolved();
  }

  /** Such an event ends the query, whatever the clients have said. */
  lemma OvertakingEndsQuery(s: Session, e: Event, env: Env)
    requires Enabled(s, e) && s.phase == QUERY_END_SESSION && Overtakes(e)
    ensures EndedByRequest(s, Step(s, e, env))
  {
    var r := Step(s, e, env);
    match e
    case PrivilegesEvent(reboot, success, askLater) =>
      var s1 := s.(privileges := s.privileges - {reboot});
      var t := if reboot then (if askLater then RebootInteract else Reboot)
               else (if askLater then ShutdownInteract else Shutdown);
      RequestEndsQuery(s1, t, env);
      assert r == Request(s1, t, env);
    case ConfirmationEvent(answer, asked) =>
      ConfirmedEndsQuery(s, answer, asked, env);
      assert r == ConfirmationAnswered(s, answer, asked, env);
  }

  lemma ConfirmedEndsQuery(s: Session, answer: Confirmation, asked: bool, env: Env)
    requires s.phase == QUERY_END_SESSION && Overtakes(ConfirmationEvent(answer, asked))
    ensures EndedByRequest(s, ConfirmationAnswered(s, answer, asked, env))
  {
    var s1, r := s.(confirmation := false), ConfirmationAnswered(s, answer, asked, env);
    if answer.action.LogoutAction? {
      var s2 := s1.(logoutMode := NoConfirmation);
      RequestEndsQuery(s2, Logout, env);
      assert r == Request(s2, Logout, env);
    } else {
      var t := if answer.action.RebootAction? then RebootCdm else ShutdownCdm;
      RequestEndsQuery(s1, t, env);
      assert r == RequestPower(s1, answer.action.RebootAction?, asked, env) == Request(s1, t, env);
    }
  }

  /** No other request event leaves the query. */
  lemma OtherRequestsStay(s: Session, e: Event, env: Env)
    requires Enabled(s, e) && s.phase == QUERY_END_SESSION && IsRequest(e) && !Overtakes(e)
    ensures QueryKept(s, Step(s, e, env))
  {
    var r := Step(s, e, env);
    match e
    case ConfirmationEvent(answer, asked) =>
      var s1 := s.(confirmation := false);
      if answer.Declined? {
        assert r == s1;
      } else if answer.action.EndsSession() {
        assert r == s1.(privileges := s1.privileges + {answer.action.RebootAction?});
      } else {
        assert r == RequestSuspend(s1, answer.action, env);
        SuspendKeeps(s1, answer.action, env);
      }
    case PrivilegesEvent(reboot, _, _) => assert r == s.(privileges := s.privileges - {reboot});
    case _ =>
  }

  /** Every step that takes a logout out of its query phase, other than by cancelling it, was agreed to by
      every client asked, or was forced, or had nobody to ask; or it was a request, begun earlier, being
      granted or confirmed, and then the departure says so. */
  lemma UnforcedLogoutIsUnanimous(s: Session, e: Event, env: Env)
    requires Reachable(s) && Enabled(s, e)
    requires s.phase == QUERY_END_SESSION && Step(s, e, env).phase > QUERY_END_SESSION
    ensures var r := Step(s, e, env);
      && |r.history.departures| > |s.history.departures|
      && var d := r.history.departures[|s.history.departures|];
         && d.phase == QUERY_END_SESSION
         && (d.cause == Requested <==> Overtakes(e))
         && (d.mode != Force && d.clients != {} && !Overtakes(e) ==> Unanimous(d))
  {
    ReachableInv(s);
    if Cancels(s, e) {
      CancelForms(s, e, env);
      CancelRestores(if e.ResponseEvent? then s else s.(dialog := None), env);
    } else if Overtakes(e) {
      OvertakingEndsQuery(s, e, env);
    } else if IsRequest(e) {
      OtherRequestsStay(s, e, env);
    } else {
      StepForward(s, e, env);
      StepInv(s, e, env);
      var r := Step(s, e, env);
      assert Justified(r.history.departures[|s.history.departures|]);
    }
  }

  /** In every run, every departure was justified. */
  lemma DeparturesAreJustified(s: Session, k: nat)
    requires Reachable(s) && k < |s.history.departures|
    ensures Justified(s.history.departures[k])
  {
    ReachableInv(s);
  }

  /** During an unforced query each client asked and still open is on the list or stands behind an inhibitor. */
  lemma OpenClientsAreCovered(s: Session, c: Client)
    requires Reachable(s) && s.phase == QUERY_END_SESSION && s.logoutMode != Force
    requires c in s.history.verdicts && s.history.verdicts[c].Open()
    ensures c in s.queryClients || OwnedBy(s.inhibitors, c) != {}
  {
    ReachableInv(s);
    if c !in s.queryClients {
      var i :| i in s.inhibitors && s.inhibitors[i].owner == Some(c);
      assert i in OwnedBy(s.inhibitors, c);
    }
  }

  // ---------- Nothing gets stuck ----------

  /** Whenever the manager returns to the main loop something is armed that will move it on. The query is
      the subject of module `StrandedQuery`. */
  lemma RestStatesAreArmed(s: Session)
    requires Reachable(s)
    ensures s.phase != APPLICATION
    ensures INITIALIZATION <= s.phase <= DESKTOP ==> s.pendingApps != multiset{} && s.phaseTimer
    ensures s.phase == RUNNING ==> !s.phaseTimer && !s.queryTimer && s.pendingApps == multiset{}
    ensures s.phase == QUERY_END_SESSION ==> !s.phaseTimer && (s.queryTimer || s.queryClients == multiset{})
    ensures s.phase == END_SESSION ==> s.phaseTimer
    ensures s.phase == EXIT ==> s.history.quit.Some?
    ensures multiset(s.handlers) == s.pendingApps
  {
    ReachableInv(s);
    if INITIALIZATION <= s.phase <= DESKTOP {
      var a :| a in s.handlers;
      assert a in s.pendingApps;
    }
  }

  // ---------- END_SESSION ----------

  /** In every run, a last-round message goes out only with no request outstanding, and only to clients
      that asked to go last. */
  lemma LastRoundComesLast(s: Session, k: nat)
    requires Reachable(s) && k < |s.history.rounds| && s.history.rounds[k].last
    ensures s.history.rounds[k].outstanding == multiset{}
    ensures forall c :: c in s.history.rounds[k].to ==> c in s.history.rounds[k].asked
  {
    ReachableInv(s);
    assert RoundOrdered(s.history.rounds[k]);
  }

  // ---------- Quitting ----------

  /** The unreachable default of `csm_manager_quit` is never reached, and the action taken is the one asked
      for last in this logout. */
  lemma QuitMatchesRequest(s: Session)
    requires Reachable(s) && s.phase == EXIT
    ensures s.history.requests != []
    ensures s.history.quit == Some(s.history.requests[|s.history.requests| - 1])
    ensures s.history.quit != Some(NoLogout)
  {
    ReachableInv(s);
  }

  // ---------- Lock-down ----------

  /** With logging out locked down no step leaves RUNNING. */
  lemma LockedDownStays(s: Session, e: Event, env: Env)
    requires Reachable(s) && Enabled(s, e) && s.phase == RUNNING && env.lockedDown
    ensures Step(s, e, env).phase == RUNNING
  {
    ReachableInv(s);
    StepInv(s, e, env);
    if !Cancels(s, e) {
      StepForward(s, e, env);
      var n, r := |s.history.departures|, Step(s, e, env);
      assert n < |r.history.departures| ==> Justified(r.history.departures[n]);
    }
  }

  // ---------- Phases ----------

  /** A step takes the phase up, one departure per rise, or takes a logout back to RUNNING by cancelling it. */
  lemma PhasesRiseOrCancel(s: Session, e: Event, env: Env)
    requires Reachable(s) && Enabled(s, e) && !e.StartEvent?
    ensures Climbs(s, Step(s, e, env), env)
         || (s.phase >= QUERY_END_SESSION && Step(s, e, env).phase == RUNNING && Cancels(s, e))
  {
    ReachableInv(s);
    if Cancels(s, e) {
      CancelForms(s, e, env);
      CancelRestores(if e.ResponseEvent? then s else s.(dialog := None), env);
    } else {
      StepForward(s, e, env);
    }
  }

  // ---------- Startup ----------

  /** No event changes the set of apps. */
  lemma StepApps(s: Session, e: Event, env: Env)
    requires Inv(s) && Enabled(s, e)
    ensures Step(s, e, env).apps == s.apps
  {
    if e.StartEvent? {
      StartPhaseOnward(s.(phase := INITIALIZATION), env);
    } else if Cancels(s, e) {
      CancelForms(s, e, env);
      CancelRestores(if e.ResponseEvent? then s else s.(dialog := None), env);
    } else {
      StepForward(s, e, env);
    }
  }

  /** Startup phases are launched in order, each once, with every earlier launch that succeeded accounted
      for: registered, exited or timed out. */
  lemma StartupIsABarrier(s: Session, k: nat)
    requires Reachable(s)
    ensures |s.history.launches| == LaunchedBy(s.phase)
    ensures k < |s.history.launches| ==> s.history.launches[k] == Launch(k + 1, EligibleApps(s.apps, k + 1), {})
  {
    ReachableInv(s);
  }

  /** Once RUNNING is reached, each enabled, undelayed app has been attempted in its own phase and no other. */
  lemma EachAppLaunchedOnce(s: Session, a: App, k: nat)
    requires Reachable(s) && s.phase >= RUNNING && k < |s.history.launches|
    requires a in s.apps && Eligible(s.apps[a], s.apps[a].phase) && INITIALIZATION <= s.apps[a].phase <= APPLICATION
    ensures s.apps[a].phase - 1 < |s.history.launches|
    ensures a in s.history.launches[k].attempted <==> k == s.apps[a].phase - 1
  {
    StartupIsABarrier(s, k);
  }

  // ---------- Inhibitors ----------

  lemma CookiesAreDistinct(s: Session, i: nat, j: nat)
    requires Reachable(s) && i in s.inhibitors && j in s.inhibitors && i != j
    ensures s.inhibitors[i].cookie != s.inhibitors[j].cookie
  {
    ReachableInv(s);
  }

  lemma RemovesExactly(s: Session, gone: set<nat>, env: Env)
    requires DialogTimely(s)
    ensures RemoveInhibitors(s, gone, env).inhibitors == s.inhibitors - gone
  {
    var r := RemoveInhibitors(s, gone, env);
    var s1 := UpdateIdle(s.(inhibitors := s.inhibitors - gone));
    if s.inhibitors.Keys !! gone {
      assert s.inhibitors - gone == s.inhibitors;
    } else if s.dialog.Some? && s.dialog.value.rows - gone == {} {
      var s2 := s1.(dialog := Some(s.dialog.value.(rows := s.dialog.value.rows - gone)));
      assert r == InhibitDialogResponse(s2, true, env);
      AcceptKeeps(s2, env);
    }
  }

  lemma AcceptKeeps(s: Session, env: Env)
    requires s.dialog.Some? && DialogTimely(s)
    ensures InhibitDialogResponse(s, true, env).inhibitors == s.inhibitors
  {
    var s1 := DialogClosed(s);
    if s.dialog.value.action.EndsSession() {
      assert InhibitDialogResponse(s, true, env) == EndPhase(s1.(logoutMode := Force), DialogAccepted, env);
      ReplyProofs.EndPhaseParties(s1.(logoutMode := Force), DialogAccepted, env);
    } else {
      PowerStands(s1, s.dialog.value.action, env);
      assert PowerAction(s1, s.dialog.value.action, env).inhibitors == s1.inhibitors;
    }
  }

  /** Uninhibit removes exactly the inhibitor the cookie was issued for. */
  lemma UninhibitRemovesTheOne(s: Session, i: nat, env: Env)
    requires Reachable(s) && i in s.inhibitors
    ensures Uninhibit(s, s.inhibitors[i].cookie, env).inhibitors == s.inhibitors - {i}
  {
    ReachableInv(s);
    assert FindByCookie(s.inhibitors, s.inhibitors[i].cookie) == Some(i);
    RemovesExactly(s.(history := Waive(s.history, s.inhibitors[i])), {i}, env);
  }

  /** A forced logout is never newly inhibited. */
  lemma ForcedGainsNoInhibitor(s: Session, e: Event, env: Env)
    requires Reachable(s) && Enabled(s, e) && s.logoutMode == Force
    ensures Step(s, e, env).inhibitors.Keys <= s.inhibitors.Keys
  {
    ReachableInv(s);
    if e.StartEvent? {
      StartPhaseOnward(s.(phase := INITIALIZATION), env);
    } else if Cancels(s, e) {
      CancelForms(s, e, env);
      CancelRestores(if e.ResponseEvent? then s else s.(dialog := None), env);
    } else {
      StepForward(s, e, env);
    }
  }

  // ---------- Building runs ----------

  /** A session without apps, clients or inhibitors, running. */
  lemma RunningSession(env: Env) returns (s: Session)
    ensures Reachable(s) && s.phase == RUNNING && s.clients == {} && s.inhibitors == map[] && s.nextInhibitor == 1
    ensures s.dialog == None && s.logoutMode == Normal && s.privileges == {} && s.history.verdicts == map[]
  {
    var s0 := Created(map[]);
    CreatedReachable(map[]);
    ReachableStep(s0, StartEvent, env);
    EmptyStartup(s0.(phase := INITIALIZATION), env);
    s := Step(s0, StartEvent, env);
  }

  lemma {:induction false} EmptyStartup(s: Session, env: Env)
    requires s.apps == map[] && INITIALIZATION <= s.phase <= RUNNING
    ensures var r := StartPhase(s, env);
      && r.phase == RUNNING && r.clients == s.clients && r.inhibitors == s.inhibitors && r.dialog == s.dialog
      && r.logoutMode == s.logoutMode && r.nextInhibitor == s.nextInhibitor && r.privileges == s.privileges
      && r.history.verdicts == s.history.verdicts
    decreases RUNNING - s.phase
  {
    if s.phase <= APPLICATION {
      var s1 := LaunchApps(ClearLists(s).(queryTimer := false), env);
      assert s1.pendingApps == multiset{};
      assert StartPhase(s, env) == DoPhaseStartup(ClearLists(s).(queryTimer := false), env);
      assert DoPhaseStartup(ClearLists(s).(queryTimer := false), env) == EndPhase(s1, NothingToStart, env);
      assert EndPhase(s1, NothingToStart, env) == StartPhase(Advance(s1, NothingToStart, env), env);
      EmptyStartup(Advance(s1, NothingToStart, env), env);
    }
  }

  lemma ReachableStep(s: Session, e: Event, env: Env)
    requires Reachable(s) && Enabled(s, e)
    ensures Reachable(Step(s, e, env))
  {
    var run :| IsRun(run) && Ends(run, s);
    assert Follows(s, Step(s, e, env));
    RunThen(run, Step(s, e, env));
  }

  lemma RunThen(run: seq<Session>, r: Session)
    requires IsRun(run) && Follows(run[|run| - 1], r)
    ensures IsRun(run + [r]) && Ends(run + [r], r)
  {
    var longer := run + [r];
    forall k: nat | k + 1 < |longer|
      ensures FollowsAt(longer, k)
    {
      if k + 1 < |run| {
        assert FollowsAt(run, k);
      }
    }
  }

  lemma CreatedReachable(apps: map<App, AppInfo>)
    ensures Reachable(Created(apps))
  {
    assert IsRun([Created(apps)]) && Ends([Created(apps)], Created(apps));
  }
}
