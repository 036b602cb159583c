/**
 Where the events lead: which dialogs appear and what they are about, whose
 verdict changes, when startup waits and goes on, when the last client's
 departure ends the session, and which request a session is quit for.
 */
module SessionOutcomes {
  import opened SessionTypes
  import opened SessionSpec
  import opened SessionInvariant
  import opened SessionRuns
  import opened SessionTheorems
  import opened EventEffects
  import EventProofs
  import ForwardProofs
  import LastingFields
  import LogoutRounds
  import PhaseProofs
  import ReplyEffects
  import ReplyProofs
  import StrandedQuery

  // ---------- What ending phases does not touch either ----------

  /** The mode, the dialog, and, unless a query begins, the verdicts. The session is saved if it should be, once, on
      its way out. */
  ghost predicate Steady(s: Session, r: Session, queried: bool, env: Env) {
    && r.phase >= s.phase
    && r.logoutMode == s.logoutMode && r.dialog == s.dialog && r.logoutType == s.logoutType
    && (!queried ==> r.history.verdicts == s.history.verdicts && r.history.askedLast == s.history.askedLast)
    && r.history.saves == s.history.saves + (if s.phase < EXIT == r.phase && env.autoSave then 1 else 0)
  }

  lemma {:induction false} EndPhaseSteady(s: Session, why: Cause, env: Env)
    ensures Steady(s, EndPhase(s, why, env), s.phase == RUNNING, env)
    decreases EXIT - s.phase, 0
  {
    if s.phase == RUNNING && env.lockedDown {
      ClearSteady(s, env);
    } else if s.phase == EXIT {
      QuitSteady(s, env);
    } else {
      AdvanceSteady(s, why, env);
      StartPhaseSteady(Advance(s, why, env), env);
    }
  }

  lemma ClearSteady(s: Session, env: Env)
    ensures var r := ClearLists(s).(queryTimer := false);
      Steady(s, ClearLists(s), false, env) && Steady(s, r, false, env) && r.phase == s.phase
  {
  }

  lemma QuitSteady(s: Session, env: Env)
    ensures Steady(s, Quit(ClearLists(s)), false, env)
  {
  }

  lemma AdvanceSteady(s: Session, why: Cause, env: Env)
    requires s.phase < EXIT
    ensures Steady(s, Advance(s, why, env), false, env) && Advance(s, why, env).phase == s.phase + 1
  {
  }

  lemma {:induction false} StartPhaseSteady(s: Session, env: Env)
    ensures Steady(s, StartPhase(s, env), s.phase == QUERY_END_SESSION, env)
    decreases EXIT - s.phase, 2
  {
    var s1 := ClearLists(s).(queryTimer := false);
    ClearSteady(s, env);
    if s.phase <= APPLICATION {
      StartupSteady(s1, env);
    } else if s.phase == END_SESSION {
      EndSessionSteady(s1, env);
    } else if s.phase == EXIT {
      ExitSteady(s1, env);
    }
  }

  lemma {:induction false} StartupSteady(s: Session, env: Env)
    requires s.phase <= APPLICATION
    ensures Steady(s, DoPhaseStartup(s, env), false, env)
    decreases EXIT - s.phase, 1
  {
    var s1 := LaunchApps(s, env);
    assert Steady(s, s1, false, env);
    if s1.pendingApps == multiset{} {
      EndPhaseSteady(s1, NothingToStart, env);
    }
  }

  lemma {:induction false} EndSessionSteady(s: Session, env: Env)
    requires s.phase == END_SESSION
    ensures Steady(s, DoPhaseEndSession(s, env), false, env)
    decreases EXIT - s.phase, 1
  {
    if s.clients == {} {
      EndPhaseSteady(s.(phaseTimer := false), NoClients, env);
    }
  }

  lemma {:induction false} ExitSteady(s: Session, env: Env)
    requires s.phase == EXIT
    ensures Steady(s, DoPhaseExit(s, env), false, env)
    decreases EXIT - s.phase, 1
  {
    var s1 := s.(history := s.history.(stopped := s.history.stopped + [Reached(s, StopMessage, env)]));
    EndPhaseSteady(s1, Exiting, env);
  }

  // ---------- Dialogs and verdicts ----------

  /** The action a dialog about the end of the session is labelled with. */
  function LabelOf(t: LogoutType): (a: LogoutAction) {
    match t
    case Reboot => RebootAction
    case RebootInteract => RebootAction
    case RebootCdm => RebootAction
    case Shutdown => ShutdownAction
    case ShutdownInteract => ShutdownAction
    case ShutdownCdm => ShutdownAction
    case _ => LogoutAction
  }

  /** Clients whose objections are settled, and clients that ask to be told last. */
  datatype Credit = Credit(settled: set<Client>, postponed: set<Client>)

  const NOBODY := Credit({}, {})

  function Reply(c: Client, ok: bool, last: bool): (who: Credit) {
    Credit(if ok then {c} else {}, if last then {c} else {})
  }

  /** From `s` to `r` no dialog came up but one about the request being carried out, no mode was set but Force, and
      nobody is credited with a consent or a wish to be last but the ones of `who`. */
  ghost predicate Honest(s: Session, r: Session, who: Credit) {
    && r.logoutType == s.logoutType
    && (r.logoutMode == s.logoutMode || r.logoutMode == Force)
    && (r.dialog.Some? ==>
          (s.dialog.Some? && r.dialog.value.action == s.dialog.value.action)
          || r.dialog.value.action == LabelOf(s.logoutType))
    && (forall c :: c in r.history.verdicts && !r.history.verdicts[c].Open() && c !in who.settled ==>
          c in s.history.verdicts && !s.history.verdicts[c].Open())
    && (forall c :: c in r.history.askedLast ==> c in s.history.askedLast || c in who.postponed)
  }

  lemma HonestThen(s: Session, r: Session, t: Session, who: Credit)
    requires Honest(s, r, who) && Honest(r, t, who)
    ensures Honest(s, t, who)
  {
  }

  lemma HonestMore(s: Session, r: Session, some: Credit, who: Credit)
    requires Honest(s, r, some) && some.settled <= who.settled && some.postponed <= who.postponed
    ensures Honest(s, r, who)
  {
  }

  lemma EndPhaseHonest(s: Session, why: Cause, env: Env)
    requires s.phase >= QUERY_END_SESSION
    ensures Honest(s, EndPhase(s, why, env), NOBODY)
  {
    EndPhaseSteady(s, why, env);
  }

  lemma AcceptHonest(s: Session, env: Env)
    requires s.dialog.Some? && DialogTimely(s)
    ensures Honest(s, InhibitDialogResponse(s, true, env), NOBODY)
  {
    var s1, action := DialogClosed(s), s.dialog.value.action;
    if action.EndsSession() {
      var s2 := s1.(logoutMode := Force);
      ForcedHonest(s);
      EndPhaseHonest(s2, DialogAccepted, env);
      HonestThen(s, s2, EndPhase(s2, DialogAccepted, env), NOBODY);
      assert InhibitDialogResponse(s, true, env) == EndPhase(s2, DialogAccepted, env);
    } else {
      assert InhibitDialogResponse(s, true, env) == PowerAction(s1, action, env);
    }
  }

  lemma ForcedHonest(s: Session)
    requires s.dialog.Some?
    ensures Honest(s, DialogClosed(s).(logoutMode := Force), NOBODY)
  {
  }

  lemma RemoveHonest(s: Session, gone: set<nat>, env: Env)
    requires DialogTimely(s)
    ensures Honest(s, RemoveInhibitors(s, gone, env), NOBODY)
  {
    var s1 := UpdateIdle(s.(inhibitors := s.inhibitors - gone));
    if s.inhibitors.Keys !! gone {
      assert RemoveInhibitors(s, gone, env) == s;
    } else if s.dialog.Some? {
      var s2 := s1.(dialog := Some(s.dialog.value.(rows := s.dialog.value.rows - gone)));
      assert Honest(s, s2, NOBODY);
      if s.dialog.value.rows - gone == {} {
        AcceptHonest(s2, env);
        HonestThen(s, s2, InhibitDialogResponse(s2, true, env), NOBODY);
      }
    } else {
      assert RemoveInhibitors(s, gone, env) == s1;
    }
  }

  lemma LabelMatches(t: LogoutType)
    ensures ActionFor(t) == LabelOf(t)
  {
  }

  lemma CompleteHonest(s: Session, env: Env)
    requires s.phase >= QUERY_END_SESSION
    ensures Honest(s, QueryEndSessionComplete(s, env), NOBODY)
  {
    var s1 := s.(queryTimer := false);
    if LogoutInhibited(s1) {
      LabelMatches(s.logoutType);
      assert QueryEndSessionComplete(s, env) == ShowInhibitDialog(s1, ActionFor(s.logoutType));
    } else {
      EndPhaseHonest(s1, QueryComplete, env);
      assert QueryEndSessionComplete(s, env) == EndPhase(s1, QueryComplete, env);
    }
  }

  lemma AnsweredHonest(s: Session, c: Client, ok: bool, last: bool)
    ensures Honest(s, ReplyProofs.Noted(s, c, ok, last), Reply(c, ok, last))
  {
  }

  lemma TakeReplyHonest(s: Session, c: Client, ok: bool, last: bool, cookie: nat, env: Env)
    requires DialogTimely(s)
    ensures Honest(s, TakeReply(s, c, ok, last, cookie, env), Reply(c, ok, last))
  {
    var s1, who := ReplyProofs.Noted(s, c, ok, last), Reply(c, ok, last);
    var r := TakeReply(s, c, ok, last, cookie, env);
    AnsweredHonest(s, c, ok, last);
    if !ok && s.logoutMode != Force {
      assert r == AddInhibitor(s1, JitInhibitor(c, cookie));
      assert Honest(s1, r, who);
    } else {
      RemoveHonest(s1, OwnedBy(s1.inhibitors, c), env);
      assert r == RemoveInhibitors(s1, OwnedBy(s1.inhibitors, c), env);
      HonestMore(s1, r, NOBODY, who);
    }
    HonestThen(s, s1, r, who);
  }

  lemma AfterReplyHonest(s: Session, c: Client, last: bool, env: Env)
    ensures Honest(s, AfterReply(s, c, last, env), NOBODY)
  {
    if s.phase == QUERY_END_SESSION && s.queryClients == multiset{} {
      CompleteHonest(s, env);
    } else if s.phase == END_SESSION {
      var s1 := ReplyEffects.Postponed(s, c, last);
      assert AfterReply(s, c, last, env) == AllReplied(s1, env);
      AllRepliedHonest(s1, env);
    }
  }

  lemma AllRepliedHonest(s: Session, env: Env)
    requires s.phase == END_SESSION
    ensures Honest(s, AllReplied(s, env), NOBODY)
  {
    if s.queryClients == multiset{} && !LogoutInhibited(s) && s.nextQueryClients == [] {
      EndPhaseHonest(s, RepliesIn, env);
      assert AllReplied(s, env) == EndPhase(s, RepliesIn, env);
    }
  }

  lemma ReplyHonest(s: Session, c: Client, ok: bool, last: bool, cookie: nat, env: Env)
    requires DialogTimely(s) && s.phase >= QUERY_END_SESSION
    ensures Honest(s, HandleResponse(s, c, ok, last, false, cookie, env), Reply(c, ok, last))
  {
    var s1, who := TakeReply(s, c, ok, last, cookie, env), Reply(c, ok, last);
    var r := AfterReply(s1, c, last, env);
    TakeReplyHonest(s, c, ok, last, cookie, env);
    AfterReplyHonest(s1, c, last, env);
    HonestMore(s1, r, NOBODY, who);
    HonestThen(s, s1, r, who);
    assert HandleResponse(s, c, ok, last, false, cookie, env) == r;
  }

  lemma DisconnectHonest(s: Session, c: Client, env: Env)
    requires Inv(s)
    ensures Honest(s, DisconnectClient(s, c, env), Credit({c}, {}))
  {
    var s0, gone := s.(history := s.history.Rule(c, Gone)), OwnedBy(s.inhibitors, c);
    var s1, r := RemoveInhibitors(s0, gone, env), DisconnectClient(s, c, env);
    assert Honest(s, s0, Credit({c}, {}));
    RemoveHonest(s0, gone, env);
    HonestMore(s0, s1, NOBODY, Credit({c}, {}));
    HonestThen(s, s0, s1, Credit({c}, {}));
    if s1.phase == QUERY_END_SESSION {
      EventProofs.GoneCovered(s, c);
      ReplyProofs.RemoveInv(s0, gone, env);
      ReplyHonest(s1, c, true, false, 0, env);
      assert r == HandleResponse(s1, c, true, false, false, 0, env);
      HonestThen(s, s1, r, Credit({c}, {}));
    } else {
      assert r == s1;
    }
  }

  lemma DesertedHonest(s: Session, env: Env)
    ensures Honest(s, ExitIfDeserted(s, env), NOBODY)
  {
    if s.phase >= QUERY_END_SESSION && s.clients == {} {
      EndPhaseHonest(s, LastClientLeft, env);
    }
  }

  lemma {:induction false} DisconnectAllHonest(s: Session, order: seq<Client>, who: Credit, env: Env)
    requires Inv(s) && forall c :: c in order ==> c in who.settled
    ensures Honest(s, DisconnectAll(s, order, env), who)
    decreases |order|
  {
    if order != [] {
      var s1 := DisconnectClient(s, order[0], env);
      var s2, r := s1.(clients := s1.clients - {order[0]}), DisconnectAll(s, order, env);
      DisconnectHonest(s, order[0], env);
      HonestMore(s, s1, Credit({order[0]}, {}), who);
      EventProofs.DisconnectInv(s, order[0], env);
      EventProofs.ClientsFrame(s1, s2.clients);
      DisconnectAllHonest(s2, order[1..], who, env);
      assert r == DisconnectAll(s2, order[1..], env);
      HonestThen(s, s2, r, who);
    }
  }

  lemma {:induction false} SilentHonest(s: Session, silent: seq<Client>, cookies: seq<nat>)
    requires |silent| <= |cookies|
    ensures var r := InhibitForSilent(s, silent, cookies); Honest(s, r, NOBODY) && r.phase == s.phase
    decreases |silent|
  {
    if silent != [] {
      var s1 := AddInhibitor(s, JitInhibitor(silent[0], cookies[0]));
      SilentHonest(s1, silent[1..], cookies[1..]);
      assert Honest(s, s1, NOBODY);
      HonestThen(s, s1, InhibitForSilent(s1, silent[1..], cookies[1..]), NOBODY);
    }
  }

  lemma QueryTimeoutHonest(s: Session, silent: seq<Client>, cookies: seq<nat>, env: Env)
    requires |silent| <= |cookies| && s.phase == QUERY_END_SESSION
    ensures Honest(s, QueryTimeout(s, silent, cookies, env), NOBODY)
  {
    var s1, s2 := s.(queryTimer := false), SilentGivenUp(s, silent, cookies);
    SilentHonest(s1, silent, cookies);
    assert Honest(s, s2, NOBODY) && s2.phase == s.phase;
    CompleteHonest(s2, env);
    HonestThen(s, s2, QueryEndSessionComplete(s2, env), NOBODY);
  }

  lemma UninhibitHonest(s: Session, cookie: nat, env: Env)
    requires Inv(s)
    ensures Honest(s, Uninhibit(s, cookie, env), Credited(s, UninhibitEvent(cookie)))
  {
    match FindByCookie(s.inhibitors, cookie)
    case None =>
    case Some(i) =>
      var s1, who := s.(history := Waive(s.history, s.inhibitors[i])), Credited(s, UninhibitEvent(cookie));
      assert s.inhibitors[i].owner.Some? ==> s.inhibitors[i].owner.value in who.settled;
      assert Honest(s, s1, who);
      RemoveHonest(s1, {i}, env);
      HonestMore(s1, RemoveInhibitors(s1, {i}, env), NOBODY, who);
      HonestThen(s, s1, RemoveInhibitors(s1, {i}, env), who);
  }

  lemma BusGoneHonest(s: Session, bus: string, who: Credit)
    requires forall c :: c in s.history.verdicts && c.bus == Some(bus) ==> c in who.settled
    ensures Honest(s, s.(history := s.history.BusGone(bus)), who)
  {
  }

  lemma BusNameLostHonest(s: Session, bus: string, order: seq<Client>, env: Env)
    requires Inv(s) && Enabled(s, BusNameLostEvent(bus, order))
    ensures Honest(s, BusNameLost(s, bus, order, env), Credited(s, BusNameLostEvent(bus, order)))
  {
    var who := Credited(s, BusNameLostEvent(bus, order));
    var s1 := s.(history := s.history.BusGone(bus));
    var s2 := RemoveInhibitors(s1, FromBus(s1.inhibitors, bus), env);
    var s3 := DisconnectAll(s2, order, env);
    var r := ExitIfDeserted(s3, env);
    BusGoneHonest(s, bus, who);
    RemoveHonest(s1, FromBus(s1.inhibitors, bus), env);
    HonestMore(s1, s2, NOBODY, who);
    HonestThen(s, s1, s2, who);
    BusRemoveLasts(s, bus, env);
    TraversalMembers(order, OnBus(s.clients, Some(bus)));
    assert forall c :: c in order ==> c in LastingFields.Members(order);
    DisconnectAllHonest(s2, order, who, env);
    HonestThen(s, s2, s3, who);
    DesertedHonest(s3, env);
    HonestMore(s3, r, NOBODY, who);
    HonestThen(s, s3, r, who);
  }

  lemma BusDisconnectedHonest(s: Session, order: seq<Client>, env: Env)
    requires Inv(s) && Enabled(s, BusDisconnectedEvent(order))
    ensures Honest(s, BusDisconnected(s, order, env), Credited(s, BusDisconnectedEvent(order)))
  {
    var who := Credited(s, BusDisconnectedEvent(order));
    var s1 := s.(busDisconnected := true);
    var s2 := DisconnectAll(s1, order, env);
    var r := ExitIfDeserted(s2, env);
    PhaseProofs.CoreFrame(s, s1);
    TraversalMembers(order, OnBus(s.clients, None));
    assert forall c :: c in order ==> c in LastingFields.Members(order);
    assert Honest(s, s1, who);
    DisconnectAllHonest(s1, order, who, env);
    HonestThen(s, s1, s2, who);
    DesertedHonest(s2, env);
    HonestMore(s2, r, NOBODY, who);
    HonestThen(s, s2, r, who);
  }

  lemma DisconnectedHonest(s: Session, c: Client, env: Env)
    requires Inv(s)
    ensures Honest(s, ClientDisconnected(s, c, env), Credit({c}, {}))
  {
    var s1 := DisconnectClient(s, c, env);
    var s2, r := s1.(clients := s1.clients - {c}), ClientDisconnected(s, c, env);
    DisconnectHonest(s, c, env);
    assert Honest(s, s2, Credit({c}, {}));
    DesertedHonest(s2, env);
    assert r == ExitIfDeserted(s2, env);
    HonestMore(s2, r, NOBODY, Credit({c}, {}));
    HonestThen(s, s2, r, Credit({c}, {}));
  }

  /** Whose objections an event settles: by agreeing, by leaving, or by someone else withdrawing them. */
  ghost function Settled(s: Session, e: Event): (who: set<Client>) {
    match e
    case ResponseEvent(c, true, _, false, _) => {c}
    case DisconnectedEvent(c) => {c}
    case BusNameLostEvent(bus, _) => set c | c in s.history.verdicts.Keys + s.clients && c.bus == Some(bus)
    case BusDisconnectedEvent(_) => set c | c in s.clients && c.bus != None
    case UninhibitEvent(cookie) =>
      set i | i in s.inhibitors && s.inhibitors[i].cookie == cookie && s.inhibitors[i].owner != None ::
        s.inhibitors[i].owner.value
    case _ => {}
  }

  /** Who asks by an event to be told last. */
  function Postpones(e: Event): (who: set<Client>) {
    match e
    case ResponseEvent(c, _, true, false, _) => {c}
    case _ => {}
  }

  ghost function Credited(s: Session, e: Event): (who: Credit) {
    Credit(Settled(s, e), Postpones(e))
  }

  /** For every reachable state and every event that neither requests nor cancels anything: a dialog that is up
      afterwards was up before with the same label, or is labelled with the request being carried out; and only
      the clients named have their objections settled, or count as asking to be last. */
  lemma OnlyTheseSettle(s: Session, e: Event, env: Env)
    requires Reachable(s) && Enabled(s, e) && !IsRequest(e) && !Cancels(s, e)
    ensures Honest(s, Step(s, e, env), Credited(s, e))
  {
    ReachableInv(s);
    if Departs(e) {
      DepartureHonest(s, e, env);
    } else if e.UninhibitEvent? || e.QueryTimeoutEvent? || e.ResponseEvent? || e.DialogAnsweredEvent? {
      AnswerStepHonest(s, e, env);
    } else {
      QuietHonest(s, e, env);
    }
  }

  lemma AnswerStepHonest(s: Session, e: Event, env: Env)
    requires Inv(s) && Enabled(s, e) && !Cancels(s, e)
    requires e.UninhibitEvent? || e.QueryTimeoutEvent? || e.ResponseEvent? || e.DialogAnsweredEvent?
    ensures Honest(s, Step(s, e, env), Credited(s, e))
  {
    var r := Step(s, e, env);
    match e
    case UninhibitEvent(cookie) =>
      UninhibitHonest(s, cookie, env);
      assert r == Uninhibit(s, cookie, env);
    case QueryTimeoutEvent(silent, cookies) =>
      QueryTimeoutHonest(s, silent, cookies, env);
      assert r == QueryTimeout(s, silent, cookies, env);
    case ResponseEvent(c, ok, last, cancel, cookie) =>
      ResponseHonest(s, c, ok, last, cancel, cookie, env);
      assert r == HandleResponse(s, c, ok, last, cancel, cookie, env);
    case DialogAnsweredEvent(accept) =>
      AnswerHonest(s, accept, env);
      assert r == InhibitDialogResponse(s, accept, env);
  }

  lemma ResponseHonest(s: Session, c: Client, ok: bool, last: bool, cancel: bool, cookie: nat, env: Env)
    requires DialogTimely(s) && !(cancel && s.phase >= QUERY_END_SESSION)
    ensures Honest(s, HandleResponse(s, c, ok, last, cancel, cookie, env),
                   Credited(s, ResponseEvent(c, ok, last, cancel, cookie)))
  {
    if s.phase < QUERY_END_SESSION {
      assert HandleResponse(s, c, ok, last, cancel, cookie, env) == s;
    } else {
      ReplyHonest(s, c, ok, last, cookie, env);
      assert Credited(s, ResponseEvent(c, ok, last, cancel, cookie)) == Reply(c, ok, last);
    }
  }

  /** Clients leave. */
  ghost predicate Departs(e: Event) {
    e.DisconnectedEvent? || e.BusNameLostEvent? || e.BusDisconnectedEvent?
  }

  lemma DepartureHonest(s: Session, e: Event, env: Env)
    requires Inv(s) && Enabled(s, e) && Departs(e)
    ensures Honest(s, Step(s, e, env), Credited(s, e))
  {
    var r := Step(s, e, env);
    match e
    case DisconnectedEvent(c) =>
      DisconnectedHonest(s, c, env);
      assert r == ClientDisconnected(s, c, env);
    case BusNameLostEvent(bus, order) =>
      BusNameLostHonest(s, bus, order, env);
      assert r == BusNameLost(s, bus, order, env);
    case BusDisconnectedEvent(order) =>
      BusDisconnectedHonest(s, order, env);
      assert r == BusDisconnected(s, order, env);
  }

  lemma AnswerHonest(s: Session, accept: bool, env: Env)
    requires DialogTimely(s) && s.dialog.Some? && (accept || !s.dialog.value.action.EndsSession())
    ensures Honest(s, InhibitDialogResponse(s, accept, env), NOBODY)
  {
    if accept {
      AcceptHonest(s, env);
    } else {
      assert InhibitDialogResponse(s, accept, env) == DialogClosed(s);
    }
  }

  /** The events of apps and timers, a client that connects, and Inhibit. */
  lemma QuietHonest(s: Session, e: Event, env: Env)
    requires Inv(s) && Enabled(s, e)
    requires e.StartEvent? || e.AppSignalEvent? || e.PhaseTimeoutEvent? || e.ConnectedEvent? || e.InhibitEvent?
    ensures Honest(s, Step(s, e, env), NOBODY)
  {
    var r := Step(s, e, env);
    match e
    case StartEvent =>
      StartPhaseSteady(s.(phase := INITIALIZATION), env);
      assert r == StartPhase(s.(phase := INITIALIZATION), env);
    case AppSignalEvent(a) =>
      AppSignalHonest(s, a, env);
      assert r == AppSignal(s, a, env);
    case PhaseTimeoutEvent =>
      PhaseTimeoutHonest(s, env);
      assert r == PhaseTimeout(s, env);
    case ConnectedEvent(c) =>
      assert r == s.(clients := s.clients + {c});
    case InhibitEvent(appId, reason, flags, sender, cookie) =>
      InhibitHonest(s, appId, reason, flags, sender, cookie);
      assert r == Inhibit(s, appId, reason, flags, sender, cookie);
  }

  lemma SteadyHonest(s: Session, r: Session, env: Env)
    requires Steady(s, r, false, env)
    ensures Honest(s, r, NOBODY)
  {
  }

  lemma AppSignalHonest(s: Session, a: App, env: Env)
    requires Inv(s)
    ensures Honest(s, AppSignal(s, a, env), NOBODY)
  {
    var s1, r := Signalled(s, a), AppSignal(s, a, env);
    if a in s.handlers && s1.pendingApps == multiset{} {
      var s2 := s1.(phaseTimer := false);
      EndPhaseSteady(s2, AppsReady, env);
      SteadyHonest(s2, EndPhase(s2, AppsReady, env), env);
      assert r == EndPhase(s2, AppsReady, env);
    }
  }

  lemma PhaseTimeoutHonest(s: Session, env: Env)
    requires Inv(s) && s.phaseTimer
    ensures Honest(s, PhaseTimeout(s, env), NOBODY)
  {
    TimedOutSteady(s, env);
    EndPhaseSteady(TimedOut(s), PhaseTimedOut, env);
    SteadyHonest(s, PhaseTimeout(s, env), env);
  }

  lemma TimedOutSteady(s: Session, env: Env)
    ensures Steady(s, TimedOut(s), false, env) && TimedOut(s).phase == s.phase
  {
    var r := TimedOut(s);
    assert r == s.(phaseTimer := false, handlers := r.handlers, history := s.history.(waiting := r.history.waiting));
  }

  lemma InhibitHonest(s: Session, appId: string, reason: string, flags: nat, sender: string, cookie: nat)
    ensures Honest(s, Inhibit(s, appId, reason, flags, sender, cookie), NOBODY)
  {
  }

  // ---------- Modes ----------

  function ModeWanted(s: Session, e: Event, env: Env): (mode: LogoutMode) {
    match e
    case LogoutEvent(Some(mode)) => if s.phase == RUNNING && !env.lockedDown then mode else s.logoutMode
    case ShutdownEvent => if s.phase == RUNNING && !env.lockedDown then Normal else s.logoutMode
    case ConfirmationEvent(Confirmed(LogoutAction), _) => NoConfirmation
    case _ => s.logoutMode
  }

  /** The mode of a request is the one it asks for. */
  lemma RequestsSetTheirMode(s: Session, e: Event, env: Env)
    requires Reachable(s) && Enabled(s, e) && IsRequest(e)
    ensures Step(s, e, env).logoutMode == ModeWanted(s, e, env)
  {
    var r := Step(s, e, env);
    match e
    case LogoutEvent(mode) =>
      LogoutModeSet(s, mode, env);
      assert r == LogoutCall(s, mode, env);
    case ShutdownEvent =>
      assert r == ShutdownCall(s, env);
    case RequestPowerEvent(reboot, asked) =>
      PowerMode(s, reboot, asked, env);
      assert r == RequestPowerCall(s, reboot, asked, env);
    case PrivilegesEvent(reboot, success, askLater) =>
      PrivilegesMode(s, reboot, success, askLater, env);
      assert r == PrivilegesCompleted(s, reboot, success, askLater, env);
    case ConfirmationEvent(answer, asked) =>
      ConfirmationMode(s, answer, asked, env);
      assert r == ConfirmationAnswered(s, answer, asked, env);
  }

  lemma LogoutModeSet(s: Session, mode: Option<LogoutMode>, env: Env)
    ensures LogoutCall(s, mode, env).logoutMode
         == if s.phase == RUNNING && !env.lockedDown && mode.Some? then mode.value else s.logoutMode
  {
    if mode.Some? {
      RequestSteady(s.(logoutMode := mode.value), Logout, env);
    }
  }

  lemma PowerMode(s: Session, reboot: bool, asked: bool, env: Env)
    ensures RequestPower(s, reboot, asked, env).logoutMode == s.logoutMode
  {
    RequestSteady(s, if reboot then RebootCdm else ShutdownCdm, env);
  }

  lemma PrivilegesMode(s: Session, reboot: bool, success: bool, askLater: bool, env: Env)
    ensures PrivilegesCompleted(s, reboot, success, askLater, env).logoutMode == s.logoutMode
  {
    var s1, r := s.(privileges := s.privileges - {reboot}), PrivilegesCompleted(s, reboot, success, askLater, env);
    var t := if reboot then (if askLater then RebootInteract else Reboot)
             else (if askLater then ShutdownInteract else Shutdown);
    RequestSteady(s1, t, env);
    assert r == if success then Request(s1, t, env) else s1;
  }

  lemma SuspendMode(s: Session, action: LogoutAction, env: Env)
    requires !action.EndsSession()
    ensures RequestSuspend(s, action, env).logoutMode == s.logoutMode
  {
    var r := RequestSuspend(s, action, env);
    if action.SwitchUserAction? && env.switchLockedDown {
      assert r == s;
    } else if AnyFlag(s.inhibitors, FlagFor(action)) {
      assert r == ShowInhibitDialog(s, action);
    } else {
      assert r == PowerAction(s, action, env);
    }
  }

  lemma RequestSteady(s: Session, t: LogoutType, env: Env)
    ensures Request(s, t, env).logoutMode == s.logoutMode && Request(s, t, env).dialog == s.dialog
  {
    EndPhaseSteady(Requesting(s, t), Requested, env);
  }

  lemma ConfirmationMode(s: Session, answer: Confirmation, asked: bool, env: Env)
    ensures ConfirmationAnswered(s, answer, asked, env).logoutMode
         == if answer == Confirmed(LogoutAction) then NoConfirmation else s.logoutMode
  {
    var s1, r := s.(confirmation := false), ConfirmationAnswered(s, answer, asked, env);
    match answer
    case Declined =>
    case Confirmed(LogoutAction) =>
      RequestSteady(s1.(logoutMode := NoConfirmation), Logout, env);
      assert r == Request(s1.(logoutMode := NoConfirmation), Logout, env);
    case Confirmed(RebootAction) =>
      PowerMode(s1, true, asked, env);
      assert r == RequestPower(s1, true, asked, env);
    case Confirmed(ShutdownAction) =>
      PowerMode(s1, false, asked, env);
      assert r == RequestPower(s1, false, asked, env);
    case Confirmed(action) =>
      SuspendMode(s1, action, env);
      assert r == RequestSuspend(s1, action, env);
  }

  // ---------- The last client ----------

  lemma DesertedExits(s: Session, env: Env)
    requires s.phase >= QUERY_END_SESSION && s.clients == {}
    ensures ExitIfDeserted(s, env).phase == EXIT
  {
    if s.phase == QUERY_END_SESSION {
      var s1 := Advance(s, LastClientLeft, env);
      var s2 := ClearLists(s1).(queryTimer := false).(phaseTimer := false);
      assert EndPhase(s, LastClientLeft, env) == StartPhase(s1, env) == EndPhase(s2, NoClients, env);
      EndSessionExits(s2, NoClients, env);
    } else {
      EndSessionExits(s, LastClientLeft, env);
    }
  }

  lemma EndSessionExits(s: Session, why: Cause, env: Env)
    requires s.phase >= END_SESSION
    ensures EndPhase(s, why, env).phase == EXIT
  {
    ForwardProofs.EndPhaseOnward(s, why, env);
  }

  /** When the last client leaves during a logout the session exits, in the same event, whatever inhibits it. */
  lemma LastClientLeaving(s: Session, e: Event, env: Env)
    requires Reachable(s) && Enabled(s, e) && s.phase >= QUERY_END_SESSION
    requires Departs(e) && ClientsAfter(s, e) == {}
    ensures Step(s, e, env).phase == EXIT
  {
    ReachableInv(s);
    ClientsFollow(s, e, env);
    DepartureExits(s, e, env);
  }

  lemma ClientsFollow(s: Session, e: Event, env: Env)
    requires Inv(s) && Enabled(s, e)
    ensures Step(s, e, env).clients == ClientsAfter(s, e)
  {
    StepFollowsTables(s, e, env);
    assert LastingFields.LastingOf(Step(s, e, env)).clients == ClientsAfter(s, e);
  }

  lemma DepartureExits(s: Session, e: Event, env: Env)
    requires Enabled(s, e) && s.phase >= QUERY_END_SESSION && Departs(e)
    ensures var r := Step(s, e, env); r.clients == {} ==> r.phase == EXIT
  {
    var r := Step(s, e, env);
    match e
    case DisconnectedEvent(c) =>
      DisconnectedExits(s, c, env);
      assert r == ClientDisconnected(s, c, env);
    case BusNameLostEvent(bus, order) =>
      BusNameLostExits(s, bus, order, env);
      assert r == BusNameLost(s, bus, order, env);
    case BusDisconnectedEvent(order) =>
      BusDisconnectedExits(s, order, env);
      assert r == BusDisconnected(s, order, env);
  }

  lemma DisconnectedExits(s: Session, c: Client, env: Env)
    requires s.phase >= QUERY_END_SESSION
    ensures var r := ClientDisconnected(s, c, env); r.clients == {} ==> r.phase == EXIT
  {
    var s1 := DisconnectClient(s, c, env);
    ForwardProofs.DisconnectOnward(s, c, env);
    LeftExits(s1.(clients := s1.clients - {c}), env);
  }

  lemma BusNameLostExits(s: Session, bus: string, order: seq<Client>, env: Env)
    requires s.phase >= QUERY_END_SESSION
    ensures var r := BusNameLost(s, bus, order, env); r.clients == {} ==> r.phase == EXIT
  {
    var s1 := s.(history := s.history.BusGone(bus));
    var s2 := RemoveInhibitors(s1, FromBus(s1.inhibitors, bus), env);
    ForwardProofs.RemoveOnward(s1, FromBus(s1.inhibitors, bus), env);
    ForwardProofs.DisconnectAllOnward(s2, order, env);
    LeftExits(DisconnectAll(s2, order, env), env);
  }

  lemma BusDisconnectedExits(s: Session, order: seq<Client>, env: Env)
    requires s.phase >= QUERY_END_SESSION
    ensures var r := BusDisconnected(s, order, env); r.clients == {} ==> r.phase == EXIT
  {
    var s1 := s.(busDisconnected := true);
    ForwardProofs.DisconnectAllOnward(s1, order, env);
    LeftExits(DisconnectAll(s1, order, env), env);
  }

  lemma LeftExits(s: Session, env: Env)
    requires s.phase >= QUERY_END_SESSION
    ensures ExitIfDeserted(s, env).clients == {} ==> ExitIfDeserted(s, env).phase == EXIT
  {
    LastingFields.DesertedLasts(s, env);
    assert ExitIfDeserted(s, env).clients == LastingFields.LastingOf(s).clients == s.clients;
    if s.clients == {} {
      DesertedExits(s, env);
    }
  }

  // ---------- Startup ----------

  /** The apps of a phase that are enabled, undelayed, and start. */
  function Starting(s: Session, env: Env): (r: set<App>) {
    set a | a in s.apps && s.apps[a].phase == s.phase && !s.apps[a].disabled && !s.apps[a].conditionallyDisabled
            && s.apps[a].delay <= 0 && env.launches(a)
  }

  /** A startup phase waits, with its timer armed, for exactly the apps that start, and goes on at once when
      there are none; the last one, APPLICATION, never waits. */
  lemma StartupWaitsForAll(s: Session, env: Env)
    requires INITIALIZATION <= s.phase <= APPLICATION && s.handlers == {}
    ensures var r, waits := StartPhase(s, env), Starting(s, env);
      if s.phase < APPLICATION && waits != {} then
        r.phase == s.phase && r.phaseTimer && r.handlers == waits && r.pendingApps == multiset(waits)
      else r.phase > s.phase
  {
    var s1 := ClearLists(s).(queryTimer := false);
    var s2 := LaunchApps(s1, env);
    assert StartPhase(s, env) == DoPhaseStartup(s1, env);
    assert Awaited(s1, env) == if s.phase < APPLICATION then Starting(s, env) else {};
    assert s2.pendingApps == multiset(Awaited(s1, env));
    if Awaited(s1, env) == {} {
      ForwardProofs.EndPhaseOnward(s2, NothingToStart, env);
    } else {
      var a :| a in Awaited(s1, env);
      assert a in s2.pendingApps;
    }
  }

  /** An app that has registered or exited is waited for no longer; after the last one the next phase begins.
      An app that nobody waits for changes nothing. */
  lemma AppSignalMoves(s: Session, a: App, env: Env)
    requires Reachable(s) && STARTUP < s.phase < RUNNING
    ensures var r := AppSignal(s, a, env);
      if s.handlers == {a} then r.phase > s.phase
      else r.phase == s.phase && r.handlers == s.handlers - {a} && r.phaseTimer
           && r.pendingApps == multiset(s.handlers - {a})
  {
    ReachableInv(s);
    if a !in s.handlers {
      assert s.handlers - {a} == s.handlers;
      assert AppSignal(s, a, env) == s.(history := s.history.(waiting := s.history.waiting - {a}));
    } else {
      SignalledPending(s.handlers, a);
      AwaitedSignalMoves(s, a, env);
    }
  }

  lemma SignalledPending(handlers: set<App>, a: App)
    requires a in handlers
    ensures multiset(handlers) - multiset{a} == multiset(handlers - {a})
    ensures multiset(handlers - {a}) == multiset{} <==> handlers == {a}
  {
    var rest := handlers - {a};
    assert handlers == rest + {a};
    if rest != {} {
      var b :| b in rest;
      assert b in multiset(rest);
    }
  }

  lemma AwaitedSignalMoves(s: Session, a: App, env: Env)
    requires STARTUP < s.phase < RUNNING && a in s.handlers && s.phaseTimer
    requires s.pendingApps - multiset{a} == multiset(s.handlers - {a})
    ensures var r, left := AppSignal(s, a, env), multiset(s.handlers - {a});
      if left == multiset{} then r.phase > s.phase
      else r.phase == s.phase && r.handlers == s.handlers - {a} && r.phaseTimer && r.pendingApps == left
  {
    var s1 := Signalled(s, a);
    if s1.pendingApps == multiset{} {
      var s2 := s1.(phaseTimer := false);
      ForwardProofs.EndPhaseOnward(s2, AppsReady, env);
      assert AppSignal(s, a, env) == EndPhase(s2, AppsReady, env);
    } else {
      assert AppSignal(s, a, env) == s1;
    }
  }

  /** The phase timer ends a startup phase, and ends END_SESSION by exiting. */
  lemma PhaseTimeoutMoves(s: Session, env: Env)
    requires Reachable(s) && s.phaseTimer
    ensures PhaseTimeout(s, env).phase > s.phase
    ensures s.phase == END_SESSION ==> PhaseTimeout(s, env).phase == EXIT
  {
    ReachableInv(s);
    ForwardProofs.EndPhaseOnward(TimedOut(s), PhaseTimedOut, env);
  }

  // ---------- The query ----------

  /** The query's timer settles it: the query is over if nothing inhibits the logout and nobody stayed silent, or the
      logout is forced and nothing inhibits it; otherwise the dialog is up. */
  lemma QueryTimeoutSettles(s: Session, silent: seq<Client>, cookies: seq<nat>, env: Env)
    requires Reachable(s) && Enabled(s, QueryTimeoutEvent(silent, cookies))
    ensures var r := QueryTimeout(s, silent, cookies, env);
      if LogoutInhibited(s) || (silent != [] && s.logoutMode != Force) then
        r.phase == QUERY_END_SESSION && r.dialog.Some? && !r.queryTimer && r.queryClients == multiset{}
      else r.phase > QUERY_END_SESSION
  {
    ReachableInv(s);
    var s1 := SilentGivenUp(s, silent, cookies);
    GivenUpAsksNobody(s, silent, cookies);
    SilentInhibits(s, silent, cookies);
    CompletionSettles(s1, env);
    assert QueryTimeout(s, silent, cookies, env) == QueryEndSessionComplete(s1, env);
  }

  lemma GivenUpAsksNobody(s: Session, silent: seq<Client>, cookies: seq<nat>)
    requires |silent| <= |cookies|
    ensures var s1 := SilentGivenUp(s, silent, cookies); s1.phase == s.phase && s1.queryClients == multiset{}
  {
    SilentHonest(s.(queryTimer := false), silent, cookies);
  }

  lemma CompletionSettles(s: Session, env: Env)
    requires s.phase == QUERY_END_SESSION && s.queryClients == multiset{}
    ensures var r := QueryEndSessionComplete(s, env);
      if LogoutInhibited(s) then
        r.phase == QUERY_END_SESSION && r.dialog.Some? && !r.queryTimer && r.queryClients == multiset{}
      else r.phase > QUERY_END_SESSION
  {
    var c := Client(0, None);
    ReplyEffects.AfterReplyInQuery(s, c, false, env);
    assert AfterReply(s, c, false, env) == QueryEndSessionComplete(s, env);
  }

  lemma SilentInhibits(s: Session, silent: seq<Client>, cookies: seq<nat>)
    requires StoreSound(s) && |silent| <= |cookies|
    ensures var s1 := SilentGivenUp(s, silent, cookies);
      LogoutInhibited(s1) <==> LogoutInhibited(s) || (silent != [] && s.logoutMode != Force)
  {
    var s0, s1 := s.(queryTimer := false), SilentGivenUp(s, silent, cookies);
    if s.logoutMode != Force {
      var l, r := LastingFields.LastingOf(s0), LastingFields.Blamed(LastingFields.LastingOf(s0), silent, cookies);
      LastingFields.SilentLasts(s0, silent, cookies);
      assert s1.inhibitors == LastingFields.LastingOf(InhibitForSilent(s0, silent, cookies)).inhibitors;
      assert s1.inhibitors == r.inhibitors && HasFlag(LOGOUT_FLAG, LOGOUT_FLAG);
      LastingFields.BlamedEach(l, silent, cookies, s.nextInhibitor);
      if i :| i in s.inhibitors && HasFlag(s.inhibitors[i].flags, LOGOUT_FLAG) {
        LastingFields.BlamedEach(l, silent, cookies, i);
        assert s1.inhibitors[i] == s.inhibitors[i];
      }
      if i :| i in s1.inhibitors && HasFlag(s1.inhibitors[i].flags, LOGOUT_FLAG) {
        LastingFields.BlamedEach(l, silent, cookies, i);
      }
    }
  }

  /** During the query, a client that disconnects is asked no longer. */
  lemma DisconnectionIsAReply(s: Session, c: Client, env: Env)
    requires s.phase == QUERY_END_SESSION
    ensures var r := DisconnectClient(s, c, env);
      r.phase > QUERY_END_SESSION || (r.phase == s.phase && r.queryClients == s.queryClients - multiset{c})
  {
    var s0, gone := s.(history := s.history.Rule(c, Gone)), OwnedBy(s.inhibitors, c);
    var s1 := RemoveInhibitors(s0, gone, env);
    ReplyEffects.RemoveKeepsLists(s0, gone, env);
    if s1.phase == QUERY_END_SESSION {
      ReplyTakesOne(s1, c, env);
      assert DisconnectClient(s, c, env) == HandleResponse(s1, c, true, false, false, 0, env);
    } else {
      assert DisconnectClient(s, c, env) == s1;
    }
  }

  lemma ReplyTakesOne(s: Session, c: Client, env: Env)
    requires s.phase == QUERY_END_SESSION
    ensures var r := HandleResponse(s, c, true, false, false, 0, env);
      r.phase > QUERY_END_SESSION || (r.phase == s.phase && r.queryClients == s.queryClients - multiset{c})
  {
    ReplyEffects.ReplyMovesQueryOn(s, c, true, false, 0, env);
  }

  // ---------- Departures ----------

  /** The departure a phase leaves behind shows the state it was ended in. */
  lemma DepartureShows(s: Session, why: Cause, env: Env)
    requires s.phase < EXIT && !(s.phase == RUNNING && env.lockedDown)
    ensures var n, r := |s.history.departures|, EndPhase(s, why, env);
      && |r.history.departures| > n
      && var d := r.history.departures[n];
         && d.phase == s.phase && d.cause == why && d.mode == s.logoutMode && d.lockedDown == env.lockedDown
         && d.clients == s.clients && d.outstanding == s.queryClients && d.postponed == s.nextQueryClients
         && (d.inhibited <==> exists i :: i in s.inhibitors && HasFlag(s.inhibitors[i].flags, LOGOUT_FLAG))
         && (forall c :: c in d.unresolved <==>
               c in s.history.verdicts && (s.history.verdicts[c] == Unanswered || s.history.verdicts[c] == Refused))
  {
    ForwardProofs.EndPhaseOnward(s, why, env);
  }

  /** A round of end-session messages is noted with its flags and with what was outstanding then. */
  lemma RoundShows(s: Session, to: multiset<Client>, last: bool, env: Env)
    ensures var n, r := |s.history.rounds|, AddRound(s, to, last, env);
      && r.history.rounds[..n] == s.history.rounds && |r.history.rounds| == n + 1
      && var round := r.history.rounds[n];
         && round.to == to && round.last == last && round.save == env.autoSave
         && (round.forceful <==> s.logoutMode == Force)
         && round.outstanding == s.queryClients && round.asked == s.history.askedLast
  {
  }

  /** The launch of a phase is noted with the earlier launches that are still waited for. */
  lemma LaunchShows(s: Session, env: Env)
    ensures var n, r := |s.history.launches|, LaunchApps(s, env);
      && r.history.launches[..n] == s.history.launches && |r.history.launches| == n + 1
      && r.history.launches[n].phase == s.phase && r.history.launches[n].waiting == s.history.waiting
      && r.history.waiting == s.history.waiting + (if s.phase < APPLICATION then Starting(s, env) else {})
  {
    assert Awaited(s, env) == if s.phase < APPLICATION then Starting(s, env) else {};
  }

  // ---------- Which request the session is quit for ----------

  /** The `k`th step of the run is an event that asks for this kind of end. */
  ghost predicate AsksAt(run: seq<Session>, k: nat, t: LogoutType) {
    k + 1 < |run| && exists e, env ::
      Enabled(run[k], e) && run[k + 1] == Step(run[k], e, env) && Wanted(run[k], e, env) == Some(t)
  }

  lemma AskedIsRecorded(run: seq<Session>, k: nat, t: LogoutType)
    requires IsRun(run) && AsksAt(run, k, t)
    ensures var requests := run[k + 1].history.requests; requests != [] && requests[|requests| - 1] == t
  {
    var e, env :|
      Enabled(run[k], e) && run[k + 1] == Step(run[k], e, env) && Wanted(run[k], e, env) == Some(t);
    RunInv(run, k);
    StepFollowsTables(run[k], e, env);
    assert LastingFields.LastingOf(run[k + 1]).requests == RequestsAfter(run[k], e, env);
  }

  ghost predicate Asking(run: seq<Session>, k: nat) {
    exists t :: AsksAt(run, k, t)
  }

  lemma UnaskedIsKept(run: seq<Session>, k: nat)
    requires IsRun(run) && k + 1 < |run| && !Asking(run, k)
    ensures run[k + 1].history.requests == run[k].history.requests
    ensures run[k + 1].phase > RUNNING ==> run[k].phase > RUNNING
  {
    assert FollowsAt(run, k);
    var e, env :| Enabled(run[k], e) && run[k + 1] == Step(run[k], e, env);
    if Wanted(run[k], e, env).Some? {
      assert AsksAt(run, k, Wanted(run[k], e, env).value);
    }
    RunInv(run, k);
    StepFollowsTables(run[k], e, env);
    assert LastingFields.LastingOf(run[k + 1]).requests == RequestsAfter(run[k], e, env);
    if run[k].phase <= RUNNING {
      StrandedQuery.PrefixReachable(run, k);
      UnwantedStays(run[k], e, env);
    }
  }

  /** Only an event that asks for it takes a session beyond RUNNING. */
  lemma UnwantedStays(s: Session, e: Event, env: Env)
    requires Reachable(s) && Enabled(s, e) && s.phase <= RUNNING && Wanted(s, e, env) == None
    ensures Step(s, e, env).phase <= RUNNING
  {
    if !IsRequest(e) {
      LogoutRounds.OnlyRequestsLeaveRunning(s, e, env);
    } else {
      UnwantedRequestStays(s, e, env);
    }
  }

  lemma UnwantedRequestStays(s: Session, e: Event, env: Env)
    requires Enabled(s, e) && s.phase <= RUNNING && Wanted(s, e, env) == None && IsRequest(e)
    ensures Step(s, e, env).phase == s.phase
  {
    if e.ConfirmationEvent? {
      UnwantedAnswerStays(s, e.answer, e.asked, env);
    } else {
      UnwantedCallStays(s, e, env);
    }
  }

  lemma UnwantedCallStays(s: Session, e: Event, env: Env)
    requires Enabled(s, e) && Wanted(s, e, env) == None && IsRequest(e) && !e.ConfirmationEvent?
    ensures Step(s, e, env).phase == s.phase
  {
    var r := Step(s, e, env);
    match e
    case LogoutEvent(mode) =>
      UnwantedLogoutStays(s, mode, env);
      assert r == LogoutCall(s, mode, env);
    case ShutdownEvent => assert r == ShutdownCall(s, env);
    case RequestPowerEvent(reboot, asked) =>
      UnwantedPowerStays(s, reboot, asked, env);
      assert r == RequestPowerCall(s, reboot, asked, env);
    case PrivilegesEvent(reboot, success, askLater) =>
      UnwantedGrantStays(s, reboot, success, askLater, env);
      assert r == PrivilegesCompleted(s, reboot, success, askLater, env);
  }

  lemma UnwantedPowerStays(s: Session, reboot: bool, asked: bool, env: Env)
    requires Wanted(s, RequestPowerEvent(reboot, asked), env) == None
    ensures RequestPowerCall(s, reboot, asked, env).phase == s.phase
  {
  }

  lemma UnwantedGrantStays(s: Session, reboot: bool, success: bool, askLater: bool, env: Env)
    requires Wanted(s, PrivilegesEvent(reboot, success, askLater), env) == None
    ensures PrivilegesCompleted(s, reboot, success, askLater, env).phase == s.phase
  {
  }

  lemma UnwantedLogoutStays(s: Session, mode: Option<LogoutMode>, env: Env)
    requires Wanted(s, LogoutEvent(mode), env) == None
    ensures LogoutCall(s, mode, env).phase == s.phase
  {
    assert LogoutCall(s, mode, env) == if LogoutError(s, mode, env).Some? then s else ShowConfirmation(s);
  }

  lemma UnwantedAnswerStays(s: Session, answer: Confirmation, asked: bool, env: Env)
    requires Wanted(s, ConfirmationEvent(answer, asked), env) == None
    ensures ConfirmationAnswered(s, answer, asked, env).phase == s.phase
  {
    var s1, r := s.(confirmation := false), ConfirmationAnswered(s, answer, asked, env);
    if answer.Declined? {
      assert r == s1;
    } else if answer.action.EndsSession() {
      assert r == s1.(privileges := s1.privileges + {answer.action.RebootAction?});
    } else {
      SuspendStands(s1, answer.action, env);
      assert r == RequestSuspend(s1, answer.action, env);
    }
  }

  lemma AskingIsRecorded(run: seq<Session>, k: nat)
    requires IsRun(run) && Asking(run, k)
    ensures k + 1 < |run| && run[k + 1].history.requests != []
    ensures var requests := run[k + 1].history.requests; AsksAt(run, k, requests[|requests| - 1])
  {
    var t :| AsksAt(run, k, t);
    AskedIsRecorded(run, k, t);
  }

  /** While nothing is asked, the requests stand, and a session that is logging out has been all along. */
  lemma {:induction false} KeptSince(run: seq<Session>, j: nat, k: nat)
    requires IsRun(run) && j <= k < |run| && forall i: nat :: j <= i < k ==> !Asking(run, i)
    ensures run[k].history.requests == run[j].history.requests
    ensures forall i: nat :: j <= i <= k && run[k].phase > RUNNING ==> run[i].phase > RUNNING
  {
    if j < k {
      UnaskedIsKept(run, k - 1);
      KeptSince(run, j, k - 1);
    }
  }

  /** The last of the first `k` steps that asks for something, if there is one. */
  lemma {:induction false} FindLast(run: seq<Session>, k: nat) returns (j: Option<nat>)
    ensures j.Some? ==> j.value < k && Asking(run, j.value)
    ensures forall i: nat :: i < k && (j.Some? ==> i > j.value) ==> !Asking(run, i)
  {
    if k == 0 {
      j := None;
    } else if Asking(run, k - 1) {
      j := Some(k - 1);
    } else {
      j := FindLast(run, k - 1);
    }
  }

  lemma LastAsked(run: seq<Session>, k: nat) returns (j: nat)
    requires IsRun(run) && k < |run| && run[k].history.requests != []
    ensures j < k && Asking(run, j) && forall i: nat :: j < i < k ==> !Asking(run, i)
  {
    var found := FindLast(run, k);
    if found.None? {
      FirstUnasked(run);
      KeptSince(run, 0, k);
    }
    j := found.value;
  }

  lemma FirstUnasked(run: seq<Session>)
    requires IsRun(run)
    ensures run[0].history.requests == []
  {
    var apps :| run[0] == Created(apps);
  }

  lemma QuitIsRecorded(run: seq<Session>, k: nat)
    requires IsRun(run) && k < |run| && run[k].phase == EXIT
    ensures var requests := run[k].history.requests;
      requests != [] && run[k].history.quit == Some(requests[|requests| - 1])
  {
    RunInv(run, k);
  }

  lemma AskedIsKept(run: seq<Session>, j: nat, k: nat)
    requires IsRun(run) && j < k < |run| && Asking(run, j) && forall i: nat :: j < i < k ==> !Asking(run, i)
    ensures var requests := run[k].history.requests; requests != [] && AsksAt(run, j, requests[|requests| - 1])
    ensures forall i: nat :: j < i <= k && run[k].phase > RUNNING ==> run[i].phase > RUNNING
  {
    AskingIsRecorded(run, j);
    KeptSince(run, j + 1, k);
  }

  /** In every run: a session that has exited was quit for what the last event that asked for its end asked for,
      and had been logging out ever since. */
  lemma QuitIsLastAsked(run: seq<Session>, k: nat) returns (j: nat)
    requires IsRun(run) && k < |run| && run[k].phase == EXIT
    ensures run[k].history.quit.Some? && j < k && AsksAt(run, j, run[k].history.quit.value)
    ensures forall i: nat :: j < i < k ==> !Asking(run, i)
    ensures forall i: nat :: j < i <= k ==> run[i].phase > RUNNING
  {
    QuitIsRecorded(run, k);
    j := LastAsked(run, k);
    AskedIsKept(run, j, k);
  }
}
