/**
 Short of a cancellation, no function of csm-manager.c takes the session back:
 phases rise one by one, each rise leaving one departure in the history. Only
 requests leave departures that were requested, and only three places ever add
 an inhibitor.
 */
module ForwardProofs {
  import opened SessionTypes
  import opened SessionSpec

  /** From `s` to `r` the phase rose by one for each departure noted, in order. */
  ghost predicate Climbs(s: Session, r: Session, env: Env) {
    var before, after := s.history.departures, r.history.departures;
    && s.phase <= r.phase
    && |after| == |before| + (r.phase - s.phase)
    && (forall k :: 0 <= k < |before| ==> after[k] == before[k])
    && (forall k :: |before| <= k < |after| ==>
          after[k].phase == s.phase + (k - |before|) && after[k].lockedDown == env.lockedDown)
  }

  ghost predicate Shrinks(s: Session, r: Session) {
    r.inhibitors.Keys <= s.inhibitors.Keys
  }

  /** No phase since `s` was ended by a request. */
  ghost predicate Unasked(s: Session, r: Session) {
    forall k :: |s.history.departures| <= k < |r.history.departures| ==> r.history.departures[k].cause != Requested
  }

  ghost predicate Rises(s: Session, r: Session, env: Env) {
    Climbs(s, r, env) && r.apps == s.apps
  }

  ghost predicate Forward(s: Session, r: Session, env: Env) {
    Rises(s, r, env) && Unasked(s, r)
  }

  ghost predicate Onward(s: Session, r: Session, env: Env) {
    Forward(s, r, env) && Shrinks(s, r)
  }

  /** `r` differs from `s` in nothing these relations look at. */
  ghost predicate Stands(s: Session, r: Session) {
    && r.phase == s.phase
    && r.history.departures == s.history.departures
    && r.apps == s.apps
    && r.inhibitors.Keys <= s.inhibitors.Keys
  }

  lemma StandsOnward(s: Session, r: Session, env: Env)
    requires Stands(s, r)
    ensures Onward(s, r, env)
  {
  }

  lemma StandsThen(s: Session, r: Session, t: Session, env: Env)
    requires Stands(s, r) && Onward(r, t, env)
    ensures Onward(s, t, env)
  {
  }

  lemma ForwardTransitive(s: Session, r: Session, t: Session, env: Env)
    requires Forward(s, r, env) && Forward(r, t, env)
    ensures Forward(s, t, env)
  {
  }

  lemma OnwardTransitive(s: Session, r: Session, t: Session, env: Env)
    requires Onward(s, r, env) && Onward(r, t, env)
    ensures Onward(s, t, env)
  {
    ForwardTransitive(s, r, t, env);
  }

  lemma AdvanceThen(s: Session, why: Cause, env: Env, r: Session)
    requires s.phase < EXIT && Onward(Advance(s, why, env), r, env)
    ensures Rises(s, r, env) && Shrinks(s, r) && (why != Requested ==> Unasked(s, r)) && r.phase > s.phase
    ensures r.history.departures[|s.history.departures|] == Snapshot(s, why, env)
  {
    var s1 := Advance(s, why, env);
    assert s1.history.departures == s.history.departures + [Snapshot(s, why, env)];
    assert Rises(s, s1, env) && Shrinks(s, s1);
  }

  /** `end_phase` moves the session on, unless it is over or logging out is locked down. */
  lemma {:induction false} EndPhaseOnward(s: Session, why: Cause, env: Env)
    ensures var r := EndPhase(s, why, env);
            && Rises(s, r, env) && Shrinks(s, r) && (why != Requested ==> Unasked(s, r))
            && (s.phase < EXIT && !(s.phase == RUNNING && env.lockedDown) ==>
                  r.phase > s.phase && r.history.departures[|s.history.departures|] == Snapshot(s, why, env))
    decreases EXIT - s.phase, 0
  {
    if s.phase == RUNNING && env.lockedDown {
      StandsOnward(s, ClearLists(s), env);
    } else if s.phase == EXIT {
      StandsOnward(s, Quit(ClearLists(s)), env);
    } else {
      var r := StartPhase(Advance(s, why, env), env);
      assert EndPhase(s, why, env) == r;
      StartPhaseOnward(Advance(s, why, env), env);
      AdvanceThen(s, why, env, r);
    }
  }

  lemma {:induction false} StartPhaseOnward(s: Session, env: Env)
    ensures Onward(s, StartPhase(s, env), env)
    decreases EXIT - s.phase, 2
  {
    var s1 := ClearLists(s).(queryTimer := false);
    if s.phase <= APPLICATION {
      StartupOnward(s1, env);
      StandsThen(s, s1, DoPhaseStartup(s1, env), env);
    } else if s.phase == RUNNING {
      StandsOnward(s, UpdateIdle(s1), env);
    } else if s.phase == QUERY_END_SESSION {
      StandsOnward(s, DoPhaseQueryEndSession(s1, env), env);
    } else if s.phase == END_SESSION {
      EndSessionOnward(s1, env);
      StandsThen(s, s1, DoPhaseEndSession(s1, env), env);
    } else {
      var s2 := s1.(history := s1.history.(stopped := s1.history.stopped + [Reached(s1, StopMessage, env)]));
      EndPhaseOnward(s2, Exiting, env);
      StandsThen(s, s2, EndPhase(s2, Exiting, env), env);
    }
  }

  lemma LaunchStands(s: Session, env: Env)
    ensures Stands(s, LaunchApps(s, env))
  {
  }

  lemma {:induction false} StartupOnward(s: Session, env: Env)
    requires s.phase <= APPLICATION
    ensures Onward(s, DoPhaseStartup(s, env), env)
    decreases EXIT - s.phase, 1
  {
    var s1 := LaunchApps(s, env);
    LaunchStands(s, env);
    if s1.pendingApps == multiset{} {
      EndPhaseOnward(s1, NothingToStart, env);
      StandsThen(s, s1, EndPhase(s1, NothingToStart, env), env);
    } else if s1.phase < APPLICATION {
      StandsOnward(s, s1.(phaseTimer := true), env);
    } else {
      StandsOnward(s, s1, env);
    }
  }

  lemma {:induction false} EndSessionOnward(s: Session, env: Env)
    requires s.phase == END_SESSION
    ensures Onward(s, DoPhaseEndSession(s, env), env)
    decreases EXIT - s.phase, 1
  {
    var s1 := s.(phaseTimer := false);
    if s.clients == {} {
      EndPhaseOnward(s1, NoClients, env);
      StandsThen(s, s1, EndPhase(s1, NoClients, env), env);
    } else {
      StandsOnward(s, DoPhaseEndSession(s, env), env);
    }
  }

  // ---------- Inhibitors, the dialog and replies ----------

  lemma AddForward(s: Session, inhibitor: Inhibitor, env: Env)
    ensures Forward(s, AddInhibitor(s, inhibitor), env)
  {
  }

  lemma ActionOnward(s: Session, action: LogoutAction, env: Env)
    ensures Onward(s, DoInhibitDialogAction(s, action, env), env)
  {
    var r := DoInhibitDialogAction(s, action, env);
    if action.EndsSession() {
      var s1 := s.(logoutMode := Force);
      assert r == EndPhase(s1, DialogAccepted, env);
      EndPhaseOnward(s1, DialogAccepted, env);
      StandsThen(s, s1, r, env);
    } else {
      StandsOnward(s, r, env);
    }
  }

  lemma ClosedStands(s: Session)
    requires s.dialog.Some?
    ensures Stands(s, DialogClosed(s))
  {
    if !s.dialog.value.action.EndsSession() && s.phase == QUERY_END_SESSION {
    } else {
    }
  }

  lemma AcceptOnward(s: Session, env: Env)
    requires s.dialog.Some?
    ensures Onward(s, InhibitDialogResponse(s, true, env), env)
  {
    var s1 := DialogClosed(s);
    var r := InhibitDialogResponse(s, true, env);
    assert r == DoInhibitDialogAction(s1, s.dialog.value.action, env);
    ActionOnward(s1, s.dialog.value.action, env);
    ClosedStands(s);
    StandsThen(s, s1, r, env);
  }

  lemma RemoveOnward(s: Session, gone: set<nat>, env: Env)
    ensures Onward(s, RemoveInhibitors(s, gone, env), env)
  {
    var r := RemoveInhibitors(s, gone, env);
    var s1 := UpdateIdle(s.(inhibitors := s.inhibitors - gone));
    if s.inhibitors.Keys !! gone {
      assert r == s;
      StandsOnward(s, s, env);
    } else if s.dialog.None? {
      assert r == s1;
      StandsOnward(s, s1, env);
    } else {
      var s2 := s1.(dialog := Some(s.dialog.value.(rows := s.dialog.value.rows - gone)));
      StandsOnward(s, s2, env);
      if s.dialog.value.rows - gone == {} {
        assert r == InhibitDialogResponse(s2, true, env);
        AcceptOnward(s2, env);
        OnwardTransitive(s, s2, r, env);
      } else {
        assert r == s2;
      }
    }
  }

  lemma CompleteOnward(s: Session, env: Env)
    ensures Onward(s, QueryEndSessionComplete(s, env), env)
  {
    var s1 := s.(queryTimer := false);
    var r := QueryEndSessionComplete(s, env);
    if !LogoutInhibited(s1) {
      assert r == EndPhase(s1, QueryComplete, env);
      EndPhaseOnward(s1, QueryComplete, env);
      StandsThen(s, s1, r, env);
    } else {
      assert r == ShowInhibitDialog(s1, ActionFor(s1.logoutType));
      StandsOnward(s, r, env);
    }
  }

  lemma TakeReplyForward(s: Session, c: Client, ok: bool, last: bool, cookie: nat, env: Env)
    ensures var r := TakeReply(s, c, ok, last, cookie, env);
            Forward(s, r, env) && (ok || s.logoutMode == Force ==> Shrinks(s, r))
  {
    var s1 := s.(queryClients := s.queryClients - multiset{c}, history := s.history.Answered(c, ok, last));
    var r := TakeReply(s, c, ok, last, cookie, env);
    if !ok && s.logoutMode != Force {
      assert r == AddInhibitor(s1, JitInhibitor(c, cookie));
      AddForward(s1, JitInhibitor(c, cookie), env);
    } else {
      assert r == RemoveInhibitors(s1, OwnedBy(s1.inhibitors, c), env);
      RemoveOnward(s1, OwnedBy(s1.inhibitors, c), env);
      StandsThen(s, s1, r, env);
    }
  }

  lemma AllRepliedOnward(s: Session, env: Env)
    requires s.phase == END_SESSION
    ensures Onward(s, AllReplied(s, env), env)
  {
    var r := AllReplied(s, env);
    if s.queryClients == multiset{} && !LogoutInhibited(s) && s.nextQueryClients == [] {
      assert r == EndPhase(s, RepliesIn, env);
      EndPhaseOnward(s, RepliesIn, env);
    } else {
      StandsOnward(s, r, env);
    }
  }

  lemma AfterReplyOnward(s: Session, c: Client, last: bool, env: Env)
    ensures Onward(s, AfterReply(s, c, last, env), env)
  {
    var r := AfterReply(s, c, last, env);
    if s.phase == QUERY_END_SESSION && s.queryClients == multiset{} {
      assert r == QueryEndSessionComplete(s, env);
      CompleteOnward(s, env);
    } else if s.phase == END_SESSION {
      var s1 := if last then s.(nextQueryClients := [c] + s.nextQueryClients) else s;
      assert r == AllReplied(s1, env);
      AllRepliedOnward(s1, env);
      StandsThen(s, s1, r, env);
    } else {
      StandsOnward(s, r, env);
    }
  }

  lemma HandleResponseForward(s: Session, c: Client, ok: bool, last: bool, cookie: nat, env: Env)
    ensures var r := HandleResponse(s, c, ok, last, false, cookie, env);
            Forward(s, r, env) && (ok || s.logoutMode == Force ==> Shrinks(s, r))
  {
    var r := HandleResponse(s, c, ok, last, false, cookie, env);
    if s.phase < QUERY_END_SESSION {
      StandsOnward(s, r, env);
    } else {
      var s1 := TakeReply(s, c, ok, last, cookie, env);
      assert r == AfterReply(s1, c, last, env);
      TakeReplyForward(s, c, ok, last, cookie, env);
      AfterReplyOnward(s1, c, last, env);
      ForwardTransitive(s, s1, r, env);
    }
  }

  // ---------- Events ----------

  lemma DisconnectOnward(s: Session, c: Client, env: Env)
    ensures Onward(s, DisconnectClient(s, c, env), env)
  {
    var s0 := s.(history := s.history.Rule(c, Gone));
    var s1 := RemoveInhibitors(s0, OwnedBy(s.inhibitors, c), env);
    var r := DisconnectClient(s, c, env);
    RemoveOnward(s0, OwnedBy(s.inhibitors, c), env);
    StandsThen(s, s0, s1, env);
    if s1.phase == QUERY_END_SESSION {
      assert r == HandleResponse(s1, c, true, false, false, 0, env);
      HandleResponseForward(s1, c, true, false, 0, env);
      OnwardTransitive(s, s1, r, env);
    } else {
      assert r == s1;
    }
  }

  lemma DesertedOnward(s: Session, env: Env)
    ensures Onward(s, ExitIfDeserted(s, env), env)
  {
    var r := ExitIfDeserted(s, env);
    if s.phase >= QUERY_END_SESSION && s.clients == {} {
      assert r == EndPhase(s, LastClientLeft, env);
      EndPhaseOnward(s, LastClientLeft, env);
    } else {
      StandsOnward(s, r, env);
    }
  }

  lemma {:induction false} DisconnectAllOnward(s: Session, order: seq<Client>, env: Env)
    ensures Onward(s, DisconnectAll(s, order, env), env)
    decreases |order|
  {
    if order == [] {
      StandsOnward(s, s, env);
    } else {
      var s1 := DisconnectClient(s, order[0], env);
      var s2 := s1.(clients := s1.clients - {order[0]});
      DisconnectOnward(s, order[0], env);
      StandsOnward(s1, s2, env);
      OnwardTransitive(s, s1, s2, env);
      DisconnectAllOnward(s2, order[1..], env);
      OnwardTransitive(s, s2, DisconnectAll(s2, order[1..], env), env);
    }
  }

  lemma ClientDisconnectedOnward(s: Session, c: Client, env: Env)
    ensures Onward(s, ClientDisconnected(s, c, env), env)
  {
    var s1 := DisconnectClient(s, c, env);
    var s2 := s1.(clients := s1.clients - {c});
    DisconnectOnward(s, c, env);
    StandsOnward(s1, s2, env);
    OnwardTransitive(s, s1, s2, env);
    DesertedOnward(s2, env);
    OnwardTransitive(s, s2, ExitIfDeserted(s2, env), env);
  }

  lemma RemoveClientsOnward(s: Session, order: seq<Client>, env: Env)
    ensures Onward(s, RemoveClientsForConnection(s, order, env), env)
  {
    var s1 := DisconnectAll(s, order, env);
    DisconnectAllOnward(s, order, env);
    DesertedOnward(s1, env);
    OnwardTransitive(s, s1, ExitIfDeserted(s1, env), env);
  }

  lemma BusNameLostOnward(s: Session, bus: string, order: seq<Client>, env: Env)
    ensures Onward(s, BusNameLost(s, bus, order, env), env)
  {
    var s1 := s.(history := s.history.BusGone(bus));
    var s2 := RemoveInhibitors(s1, FromBus(s1.inhibitors, bus), env);
    RemoveOnward(s1, FromBus(s1.inhibitors, bus), env);
    StandsThen(s, s1, s2, env);
    RemoveClientsOnward(s2, order, env);
    OnwardTransitive(s, s2, RemoveClientsForConnection(s2, order, env), env);
  }

  lemma BusDisconnectedOnward(s: Session, order: seq<Client>, env: Env)
    ensures Onward(s, BusDisconnected(s, order, env), env)
  {
    var s1 := s.(busDisconnected := true);
    RemoveClientsOnward(s1, order, env);
    StandsThen(s, s1, RemoveClientsForConnection(s1, order, env), env);
  }

  lemma AppSignalOnward(s: Session, a: App, env: Env)
    ensures Onward(s, AppSignal(s, a, env), env)
  {
    var r := AppSignal(s, a, env);
    if a in s.handlers && Signalled(s, a).pendingApps == multiset{} {
      var s1 := Signalled(s, a).(phaseTimer := false);
      assert r == EndPhase(s1, AppsReady, env);
      EndPhaseOnward(s1, AppsReady, env);
      StandsThen(s, s1, r, env);
    } else {
      StandsOnward(s, r, env);
    }
  }

  lemma TimedOutStands(s: Session)
    ensures Stands(s, TimedOut(s))
  {
    if s.phase > APPLICATION {
    } else {
    }
  }

  lemma PhaseTimeoutOnward(s: Session, env: Env)
    ensures Onward(s, PhaseTimeout(s, env), env)
  {
    TimedOutStands(s);
    EndPhaseOnward(TimedOut(s), PhaseTimedOut, env);
    StandsThen(s, TimedOut(s), EndPhase(TimedOut(s), PhaseTimedOut, env), env);
  }

  lemma {:induction false} SilentForward(s: Session, silent: seq<Client>, cookies: seq<nat>, env: Env)
    requires |silent| <= |cookies|
    ensures Forward(s, InhibitForSilent(s, silent, cookies), env)
    decreases |silent|
  {
    if silent == [] {
    } else {
      var s1 := AddInhibitor(s, JitInhibitor(silent[0], cookies[0]));
      AddForward(s, JitInhibitor(silent[0], cookies[0]), env);
      SilentForward(s1, silent[1..], cookies[1..], env);
      ForwardTransitive(s, s1, InhibitForSilent(s1, silent[1..], cookies[1..]), env);
    }
  }

  lemma QueryTimeoutForward(s: Session, silent: seq<Client>, cookies: seq<nat>, env: Env)
    requires |silent| <= |cookies|
    ensures var r := QueryTimeout(s, silent, cookies, env);
            Forward(s, r, env) && (s.logoutMode == Force ==> Shrinks(s, r))
  {
    var r := QueryTimeout(s, silent, cookies, env);
    var s1 := s.(queryTimer := false);
    if s.logoutMode == Force {
      var s2 := s1.(queryClients := multiset{});
      CompleteOnward(s2, env);
      StandsThen(s, s2, r, env);
    } else {
      var s2 := InhibitForSilent(s1, silent, cookies);
      var s3 := s2.(queryClients := multiset{});
      StandsOnward(s, s1, env);
      SilentForward(s1, silent, cookies, env);
      ForwardTransitive(s, s1, s2, env);
      CompleteOnward(s3, env);
      StandsThen(s2, s3, r, env);
      ForwardTransitive(s, s2, r, env);
    }
  }

  lemma UninhibitOnward(s: Session, cookie: nat, env: Env)
    ensures Onward(s, Uninhibit(s, cookie, env), env)
  {
    match FindByCookie(s.inhibitors, cookie)
    case None =>
      StandsOnward(s, s, env);
    case Some(i) =>
      var s1 := s.(history := Waive(s.history, s.inhibitors[i]));
      RemoveOnward(s1, {i}, env);
      StandsThen(s, s1, RemoveInhibitors(s1, {i}, env), env);
  }

  // ---------- Requests ----------

  /** Like `Onward`, but for a first departure that may have been requested. */
  ghost predicate Requests(s: Session, r: Session, env: Env) {
    Rises(s, r, env) && Shrinks(s, r)
  }

  lemma RequestRises(s: Session, t: LogoutType, env: Env)
    ensures var r := Request(s, t, env);
            && Requests(s, r, env)
            && (s.phase < EXIT && !(s.phase == RUNNING && env.lockedDown) ==>
                  r.phase > s.phase
                  && r.history.departures[|s.history.departures|] == Snapshot(Requesting(s, t), Requested, env))
  {
    EndPhaseOnward(Requesting(s, t), Requested, env);
  }

  lemma StandsRequests(s: Session, r: Session, env: Env)
    requires Stands(s, r)
    ensures Requests(s, r, env)
  {
  }

  lemma StandsThenRequests(s: Session, r: Session, t: Session, env: Env)
    requires Stands(s, r) && Requests(r, t, env)
    ensures Requests(s, t, env)
  {
  }

  lemma RequestPowerRises(s: Session, reboot: bool, asked: bool, env: Env)
    ensures Requests(s, RequestPower(s, reboot, asked, env), env)
  {
    if asked {
      StandsRequests(s, RequestPower(s, reboot, asked, env), env);
    } else {
      RequestRises(s, if reboot then RebootCdm else ShutdownCdm, env);
    }
  }
}
