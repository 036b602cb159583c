/**
 The recursion of `end_phase`, `start_phase` and the `do_phase_*` functions keeps the invariant.
 */
module PhaseProofs {
  import opened SessionTypes
  import opened SessionSpec
  import opened SessionInvariant

  /** No app is waited for, and every startup phase so far was launched. */
  ghost predicate Drained(s: Session) {
    s.handlers == {} == s.history.waiting && Launched(s, LaunchedBy(s.phase))
  }

  /** What `end_phase` needs of its caller. */
  ghost predicate Departing(s: Session, why: Cause, env: Env) {
    && Core(s)
    && IdleWatched(s)
    && Drained(s)
    && (s.phase == RUNNING && env.lockedDown ==> !s.queryTimer)
    && (s.phase == RUNNING && !env.lockedDown ==> LastRequested(s))
    && (s.phase == EXIT ==> !s.queryTimer)
    && (s.phase < EXIT && !(s.phase == RUNNING && env.lockedDown) ==> Justified(Snapshot(s, why, env)))
  }

  /** What `start_phase` needs of its caller. */
  ghost predicate Starting(s: Session) {
    && Core(s)
    && (s.phase > RUNNING ==> IdleWatched(s))
    && s.phase > STARTUP
    && s.handlers == {} == s.history.waiting
    && Launched(s, if s.phase <= APPLICATION then s.phase - 1 else APPLICATION)
  }

  lemma AdvanceCore(s: Session, why: Cause, env: Env)
    requires Core(s) && s.phase < EXIT
    requires s.phase == RUNNING ==> LastRequested(s)
    requires Justified(Snapshot(s, why, env))
    ensures Core(Advance(s, why, env))
  {
  }

  lemma AdvanceStarting(s: Session, why: Cause, env: Env)
    requires Departing(s, why, env) && s.phase < EXIT && !(s.phase == RUNNING && env.lockedDown)
    ensures Starting(Advance(s, why, env))
    ensures Advance(s, why, env).inhibitors == s.inhibitors
  {
    AdvanceCore(s, why, env);
    AdvanceKeeps(s, why, env);
  }

  lemma AdvanceKeeps(s: Session, why: Cause, env: Env)
    requires s.phase < EXIT
    ensures var r := Advance(s, why, env);
      && r.phase == s.phase + 1 && r.inhibitors == s.inhibitors && r.idleEnabled == s.idleEnabled
      && r.handlers == s.handlers && r.apps == s.apps
      && r.history.waiting == s.history.waiting && r.history.launches == s.history.launches
  {
  }

  lemma ClearCore(s: Session)
    requires Core(s)
    ensures Core(ClearLists(s))
    ensures Core(ClearLists(s).(queryTimer := false))
  {
  }

  lemma LockedInv(s: Session)
    requires Core(s) && IdleWatched(s) && Drained(s) && !s.queryTimer
    requires s.phase == RUNNING
    ensures Inv(ClearLists(s))
  {
    ClearCore(s);
  }

  lemma QuitInv(s: Session)
    requires Core(s) && IdleWatched(s) && Drained(s) && !s.queryTimer
    requires s.phase == EXIT
    ensures Inv(Quit(ClearLists(s)))
  {
    ClearCore(s);
  }

  /** The fields `Core` looks at. */
  ghost predicate SameCore(s: Session, r: Session) {
    && r.phase == s.phase
    && r.dialog == s.dialog
    && r.inhibitors == s.inhibitors
    && r.nextInhibitor == s.nextInhibitor
    && r.logoutType == s.logoutType
    && r.confirmation == s.confirmation
    && r.privileges == s.privileges
    && r.nextQueryClients == s.nextQueryClients
    && r.history.askedLast == s.history.askedLast
    && r.history.departures == s.history.departures
    && r.history.rounds == s.history.rounds
    && r.history.requests == s.history.requests
  }

  lemma CoreFrame(s: Session, r: Session)
    requires Core(s) && SameCore(s, r)
    ensures Core(r)
  {
  }

  /** The state `start_phase` has just reset. */
  ghost predicate Fresh(s: Session) {
    && Starting(s)
    && s.pendingApps == multiset{}
    && s.queryClients == multiset{}
    && s.nextQueryClients == []
    && !s.queryTimer
    && !s.phaseTimer
  }

  lemma LaunchCore(s: Session, env: Env)
    requires Core(s) && s.phase <= APPLICATION
    ensures Core(LaunchApps(s, env))
  {
    CoreFrame(s, LaunchApps(s, env));
  }

  lemma LaunchTracked(s: Session, env: Env)
    requires Fresh(s) && s.phase <= APPLICATION
    ensures var r := LaunchApps(s, env);
            AppsTracked(r) && (s.phase == APPLICATION ==> r.handlers == {}) && !r.phaseTimer && !r.queryTimer
  {
    var r := LaunchApps(s, env);
    assert r.handlers == Awaited(s, env);
  }

  lemma LaunchInv(s: Session, env: Env)
    requires Fresh(s) && s.phase < APPLICATION
    requires LaunchApps(s, env).pendingApps != multiset{}
    ensures Inv(LaunchApps(s, env).(phaseTimer := true))
  {
    var r := LaunchApps(s, env);
    LaunchCore(s, env);
    LaunchTracked(s, env);
  }

  lemma LaunchDeparting(s: Session, env: Env)
    requires Fresh(s) && s.phase <= APPLICATION
    requires LaunchApps(s, env).pendingApps == multiset{}
    ensures Departing(LaunchApps(s, env), NothingToStart, env)
  {
    var r := LaunchApps(s, env);
    LaunchCore(s, env);
    LaunchTracked(s, env);
    assert forall a :: a in r.handlers ==> a in r.pendingApps;
  }

  lemma RunningInv(s: Session)
    requires Fresh(s) && s.phase == RUNNING
    ensures Inv(UpdateIdle(s))
  {
    var r := UpdateIdle(s);
    assert Core(r);
  }

  lemma QueryBegunInv(s: Session, env: Env)
    requires Fresh(s) && s.phase == QUERY_END_SESSION
    ensures Inv(DoPhaseQueryEndSession(s, env))
  {
    var r := DoPhaseQueryEndSession(s, env);
    assert Core(r);
  }

  lemma EndBegunInv(s: Session, env: Env)
    requires Fresh(s) && s.phase == END_SESSION
    ensures Inv(AddRound(s.(phaseTimer := true), multiset(Reached(s, EndMessage, env)), false, env))
  {
    var r := AddRound(s.(phaseTimer := true), multiset(Reached(s, EndMessage, env)), false, env);
    assert Core(r);
  }

  lemma {:induction false} EndPhaseInv(s: Session, why: Cause, env: Env)
    requires Departing(s, why, env)
    ensures Inv(EndPhase(s, why, env))
    decreases EXIT - s.phase, 0
  {
    if s.phase == RUNNING && env.lockedDown {
      LockedInv(s);
    } else if s.phase == EXIT {
      QuitInv(s);
    } else {
      AdvanceStarting(s, why, env);
      StartPhaseInv(Advance(s, why, env), env);
    }
  }

  lemma StartFresh(s: Session)
    requires Starting(s)
    ensures Fresh(ClearLists(s).(queryTimer := false))
  {
    ClearCore(s);
  }

  lemma ExitDeparting(s: Session, env: Env)
    requires Fresh(s) && s.phase == EXIT
    ensures Departing(s.(history := s.history.(stopped := s.history.stopped + [Reached(s, StopMessage, env)])),
                      Exiting, env)
  {
    CoreFrame(s, s.(history := s.history.(stopped := s.history.stopped + [Reached(s, StopMessage, env)])));
  }

  lemma DesertedDeparting(s: Session, env: Env)
    requires Fresh(s) && s.phase == END_SESSION && s.clients == {}
    ensures Departing(s, NoClients, env)
  {
  }

  lemma {:induction false} StartPhaseInv(s: Session, env: Env)
    requires Starting(s)
    ensures Inv(StartPhase(s, env))
    decreases EXIT - s.phase, 2
  {
    StartFresh(s);
    var s1 := ClearLists(s).(queryTimer := false);
    if s1.phase <= APPLICATION {
      StartupPhaseInv(s1, env);
    } else if s1.phase == RUNNING {
      RunningInv(s1);
    } else if s1.phase == QUERY_END_SESSION {
      QueryBegunInv(s1, env);
    } else if s1.phase == END_SESSION {
      EndSessionPhaseInv(s1, env);
    } else {
      ExitDeparting(s1, env);
      EndPhaseInv(s1.(history := s1.history.(stopped := s1.history.stopped + [Reached(s1, StopMessage, env)])),
                  Exiting, env);
    }
  }

  lemma {:induction false} StartupPhaseInv(s: Session, env: Env)
    requires Fresh(s) && s.phase <= APPLICATION
    ensures Inv(DoPhaseStartup(s, env))
    decreases EXIT - s.phase, 1
  {
    var s1 := LaunchApps(s, env);
    if s1.pendingApps == multiset{} {
      LaunchDeparting(s, env);
      EndPhaseInv(s1, NothingToStart, env);
    } else {
      LaunchTracked(s, env);
      LaunchInv(s, env);
    }
  }

  lemma {:induction false} EndSessionPhaseInv(s: Session, env: Env)
    requires Fresh(s) && s.phase == END_SESSION
    ensures Inv(DoPhaseEndSession(s, env))
    decreases EXIT - s.phase, 1
  {
    if s.clients != {} {
      EndBegunInv(s, env);
      assert s.(phaseTimer := false) == s;
    } else {
      DesertedDeparting(s, env);
      EndPhaseInv(s, NoClients, env);
      assert s.(phaseTimer := false) == s;
    }
  }
}
