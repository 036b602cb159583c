/**
 Who is told what during a logout: what takes a session out of RUNNING, which
 clients the query and the end-session messages go to, and how EXIT is entered.
 */
module LogoutRounds {
  import opened SessionTypes
  import opened SessionSpec
  import opened SessionInvariant
  import opened ForwardProofs
  import opened SessionRuns
  import opened SessionTheorems

  // ---------- Only a request leaves RUNNING ----------

  /** To get past RUNNING is to leave a departure from it, which is justified only by a request. */
  lemma UnaskedStays(s: Session, r: Session, env: Env)
    requires Rises(s, r, env) && Unasked(s, r) && DeparturesJustified(r.history) && s.phase <= RUNNING
    ensures r.phase <= RUNNING
  {
    var k := |s.history.departures| + (RUNNING - s.phase);
    assert k < |r.history.departures| ==> Justified(r.history.departures[k]);
  }

  /** No timer, reply, signal, disconnection, inhibitor or leftover dialog gets a session past RUNNING. */
  lemma OnlyRequestsLeaveRunning(s: Session, e: Event, env: Env)
    requires Reachable(s) && Enabled(s, e) && s.phase <= RUNNING && !IsRequest(e)
    ensures Step(s, e, env).phase <= RUNNING
  {
    ReachableInv(s);
    StepInv(s, e, env);
    if e.StartEvent? {
      StartPhaseOnward(s.(phase := INITIALIZATION), env);
      UnaskedStays(s.(phase := INITIALIZATION), Step(s, e, env), env);
    } else if Cancels(s, e) {
      CancelForms(s, e, env);
      assert false;
    } else {
      StepForward(s, e, env);
      UnaskedStays(s, Step(s, e, env), env);
    }
  }

  // ---------- The query asks every client ----------

  /** Every stored client the query message reaches, and no other, is asked, and none has answered. */
  ghost predicate Asked(r: Session, clients: set<Client>, env: Env) {
    && r.phase == QUERY_END_SESSION && r.queryTimer
    && r.history.verdicts.Keys == (set c | c in clients && env.delivers(QueryMessage, c))
    && (forall c :: c in r.history.verdicts ==> r.history.verdicts[c] == Unanswered)
    && r.queryClients == multiset(r.history.verdicts.Keys)
    && r.history.requests == [r.logoutType] && r.history.askedLast == {}
  }

  lemma RequestAsks(s: Session, t: LogoutType, env: Env)
    requires s.phase == RUNNING && !env.lockedDown
    ensures var r := Request(s, t, env);
      && Asked(r, s.clients, env) && r.logoutType == t
      && r.logoutMode == s.logoutMode && r.clients == s.clients && r.privileges == s.privileges
  {
    var s1 := Requesting(s, t);
    assert Request(s, t, env) == EndPhase(s1, Requested, env);
    var s2 := ClearLists(Advance(s1, Requested, env)).(queryTimer := false);
    assert EndPhase(s1, Requested, env) == DoPhaseQueryEndSession(s2, env);
  }

  /** Whatever takes a session out of RUNNING begins the query, and asks every client. */
  lemma LogoutAsksEveryClient(s: Session, e: Event, env: Env)
    requires Reachable(s) && Enabled(s, e) && s.phase == RUNNING && Step(s, e, env).phase != RUNNING
    ensures Asked(Step(s, e, env), s.clients, env) && Step(s, e, env).logoutType != NoLogout
  {
    if env.lockedDown {
      LockedDownStays(s, e, env);
    } else if !IsRequest(e) {
      OnlyRequestsLeaveRunning(s, e, env);
      PhasesRiseOrCancel(s, e, env);
    } else {
      RequestEventAsks(s, e, env);
    }
  }

  lemma RequestEventAsks(s: Session, e: Event, env: Env)
    requires Enabled(s, e) && IsRequest(e) && s.phase == RUNNING && !env.lockedDown
    ensures AskedIfLeft(s, Step(s, e, env), env)
  {
    var r := Step(s, e, env);
    match e
    case LogoutEvent(mode) =>
      LogoutAsks(s, mode, env);
      assert r == LogoutCall(s, mode, env);
    case RequestPowerEvent(reboot, asked) =>
      PowerAsks(s, reboot, asked, env);
      assert r == RequestPower(s, reboot, asked, env);
    case PrivilegesEvent(reboot, success, askLater) =>
      PrivilegesAsks(s, reboot, success, askLater, env);
      assert r == PrivilegesCompleted(s, reboot, success, askLater, env);
    case ConfirmationEvent(answer, asked) =>
      ConfirmationAsks(s, answer, asked, env);
      assert r == ConfirmationAnswered(s, answer, asked, env);
    case ShutdownEvent =>
      assert r.phase == RUNNING;
  }

  /** The request was not followed, or it began the query. */
  ghost predicate AskedIfLeft(s: Session, r: Session, env: Env) {
    r.phase == RUNNING || (Asked(r, s.clients, env) && r.logoutType != NoLogout)
  }

  lemma LogoutAsks(s: Session, mode: Option<LogoutMode>, env: Env)
    requires s.phase == RUNNING && !env.lockedDown
    ensures AskedIfLeft(s, LogoutCall(s, mode, env), env)
  {
    var r := LogoutCall(s, mode, env);
    if mode.None? {
      assert r == s;
    } else if mode.value == Normal && env.logoutPrompt {
      assert r == ShowConfirmation(s);
    } else {
      FollowedLogoutAsks(s, mode.value, env);
      assert r == Request(s.(logoutMode := mode.value), Logout, env);
    }
  }

  lemma FollowedLogoutAsks(s: Session, mode: LogoutMode, env: Env)
    requires s.phase == RUNNING && !env.lockedDown
    ensures AskedIfLeft(s, Request(s.(logoutMode := mode), Logout, env), env)
  {
    RequestAsks(s.(logoutMode := mode), Logout, env);
  }

  lemma PrivilegesAsks(s: Session, reboot: bool, success: bool, askLater: bool, env: Env)
    requires s.phase == RUNNING && !env.lockedDown
    ensures AskedIfLeft(s, PrivilegesCompleted(s, reboot, success, askLater, env), env)
  {
    var s1 := s.(privileges := s.privileges - {reboot});
    var t := if reboot then (if askLater then RebootInteract else Reboot)
             else (if askLater then ShutdownInteract else Shutdown);
    assert PrivilegesCompleted(s, reboot, success, askLater, env) == if success then Request(s1, t, env) else s1;
    RequestAsks(s1, t, env);
  }

  lemma PowerAsks(s: Session, reboot: bool, asked: bool, env: Env)
    requires s.phase == RUNNING && !env.lockedDown
    ensures AskedIfLeft(s, RequestPower(s, reboot, asked, env), env)
  {
    RequestAsks(s, if reboot then RebootCdm else ShutdownCdm, env);
  }

  lemma SuspendKeepsPhase(s: Session, action: LogoutAction, env: Env)
    requires !action.EndsSession()
    ensures RequestSuspend(s, action, env).phase == s.phase
  {
    SuspendStands(s, action, env);
  }

  lemma ConfirmationAsks(s: Session, answer: Confirmation, asked: bool, env: Env)
    requires s.phase == RUNNING && !env.lockedDown
    ensures AskedIfLeft(s, ConfirmationAnswered(s, answer, asked, env), env)
  {
    var s1 := s.(confirmation := false);
    match answer
    case Declined =>
    case Confirmed(LogoutAction) => RequestAsks(s1.(logoutMode := NoConfirmation), Logout, env);
    case Confirmed(RebootAction) => PowerAsks(s1, true, asked, env);
    case Confirmed(ShutdownAction) => PowerAsks(s1, false, asked, env);
    case Confirmed(action) => SuspendKeepsPhase(s1, action, env);
  }

  // ---------- The end of the session is announced to every client ----------

  /** Leaving the query with clients connected sends one round, to all of them, forcefully just when the
      logout is forced; nothing else is outstanding, and the phase timer runs. */
  lemma EndSessionTellsEveryClient(s: Session, why: Cause, env: Env)
    requires s.phase == QUERY_END_SESSION && s.clients != {}
    ensures var r := EndPhase(s, why, env);
      var to := multiset(Reached(s, EndMessage, env));
      && r.phase == END_SESSION && r.phaseTimer && !r.queryTimer
      && r.queryClients == to && r.nextQueryClients == []
      && r.history.rounds == s.history.rounds
           + [Round(to, s.logoutMode == Force, env.autoSave, false, multiset{}, s.history.askedLast)]
  {
    var s1 := ClearLists(Advance(s, why, env)).(queryTimer := false);
    assert EndPhase(s, why, env) == DoPhaseEndSession(s1, env);
    assert DoPhaseEndSession(s1, env)
        == AddRound(s1.(phaseTimer := true), multiset(Reached(s, EndMessage, env)), false, env);
  }

  /** Leaving END_SESSION saves the session if auto-save is on, tells every client to stop, and quits with the
      logout type, in one go. */
  lemma LeavingQuits(s: Session, why: Cause, env: Env)
    requires s.phase == END_SESSION
    ensures var r := EndPhase(s, why, env);
      && r.phase == EXIT && !r.phaseTimer && !r.queryTimer
      && r.history.saves == s.history.saves + (if env.autoSave then 1 else 0)
      && r.history.stopped == s.history.stopped + [Reached(s, StopMessage, env)]
      && r.history.quit == Some(s.logoutType)
  {
    var s1 := ClearLists(Advance(s, why, env)).(queryTimer := false);
    var s2 := s1.(history := s1.history.(stopped := s1.history.stopped + [Reached(s1, StopMessage, env)]));
    assert EndPhase(s, why, env) == StartPhase(Advance(s, why, env), env);
    assert StartPhase(Advance(s, why, env), env) == DoPhaseExit(s1, env);
    assert DoPhaseExit(s1, env) == EndPhase(s2, Exiting, env);
    assert EndPhase(s2, Exiting, env) == Quit(ClearLists(s2));
  }

  // ---------- A request that overtakes the query ----------

  /** An event that ends an unforced query although some client has not agreed. */
  ghost predicate Overrides(s: Session, e: Event, env: Env) {
    && Enabled(s, e) && Overtakes(e) && s.phase == QUERY_END_SESSION && s.logoutMode != Force
    && s.history.Unresolved() != {} && s.history.Unresolved() <= s.clients
    && EndedByRequest(s, Step(s, e, env))
  }

  /** A session with one client, in which a reboot has been asked for and its privilege is awaited. */
  lemma RebootAsked(c: Client, env: Env) returns (s: Session)
    ensures Reachable(s) && s.phase == RUNNING && s.clients == {c} && s.privileges == {true}
  {
    var s0 := RunningSession(env);
    ReachableStep(s0, ConnectedEvent(c), env);
    var s1 := Step(s0, ConnectedEvent(c), env);
    ReachableStep(s1, RequestPowerEvent(true, true), env);
    s := Step(s1, RequestPowerEvent(true, true), env);
  }

  lemma QueryUnderWay(s: Session, c: Client, env: Env)
    requires s.phase == RUNNING && s.clients == {c} && s.privileges == {true}
    requires !env.lockedDown && env.delivers(QueryMessage, c)
    ensures var r := LogoutCall(s, Some(NoConfirmation), env);
      && r.phase == QUERY_END_SESSION && r.logoutMode == NoConfirmation && r.privileges == {true}
      && r.clients == {c} && r.history.Unresolved() == {c}
  {
    var s1 := s.(logoutMode := NoConfirmation);
    var r := LogoutCall(s, Some(NoConfirmation), env);
    assert r == Request(s1, Logout, env);
    RequestAsks(s1, Logout, env);
    assert r.history.verdicts.Keys == {c};
    assert c in r.history.verdicts && r.history.verdicts[c].Open();
  }

  /** A reboot is asked for, then a logout; the privilege for the reboot comes while a client is being asked.
      This run is one the manager accepts, and the client's answer is not waited for. */
  lemma RequestsOvertake(c: Client, env: Env)
    requires !env.lockedDown && env.delivers(QueryMessage, c)
    ensures exists s, e :: Reachable(s) && Overrides(s, e, env)
  {
    var s0 := RebootAsked(c, env);
    ReachableStep(s0, LogoutEvent(Some(NoConfirmation)), env);
    QueryUnderWay(s0, c, env);
    var s, e := Step(s0, LogoutEvent(Some(NoConfirmation)), env), PrivilegesEvent(true, true, false);
    assert Enabled(s, e) && Overtakes(e);
    OvertakingEndsQuery(s, e, env);
    assert Overrides(s, e, env);
  }
}
