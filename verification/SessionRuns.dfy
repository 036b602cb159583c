/**
 Runs of the session manager: the states it is in between events, which may come
 in any order and each with its own environment, from the creation of the object
 on. Every state of every run satisfies the invariant.
 */
module SessionRuns {
  import opened SessionTypes
  import opened SessionSpec
  import opened SessionInvariant
  import PhaseProofs
  import opened ReplyProofs
  import opened EventProofs

  datatype Event =
    | StartEvent
    | AppSignalEvent(app: App)
    | PhaseTimeoutEvent
    | QueryTimeoutEvent(silent: seq<Client>, cookies: seq<nat>)
    | ResponseEvent(client: Client, ok: bool, last: bool, cancel: bool, cookie: nat)
    | ConnectedEvent(client: Client)
    | DisconnectedEvent(client: Client)
    | BusNameLostEvent(bus: string, order: seq<Client>)
    | BusDisconnectedEvent(order: seq<Client>)
    | InhibitEvent(appId: string, reason: string, flags: nat, sender: string, cookie: nat)
    | UninhibitEvent(cookie: nat)
    | DialogAnsweredEvent(accept: bool)
    | LogoutEvent(mode: Option<LogoutMode>)
    | ShutdownEvent
    | RequestPowerEvent(reboot: bool, asked: bool)
    | PrivilegesEvent(reboot: bool, success: bool, askLater: bool)
    | ConfirmationEvent(answer: Confirmation, asked: bool)

  /** `order` visits the clients of `cs`, each once. */
  ghost predicate Traversal(order: seq<Client>, cs: set<Client>) {
    multiset(order) == multiset(cs)
  }

  /** When an event can occur: timers must be armed, dialogs up, cookies freshly drawn. The confirmation
      dialog's answer stops the process unless the logout mode is Normal. */
  ghost predicate Enabled(s: Session, e: Event) {
    match e
    case StartEvent => s.phase == STARTUP
    case PhaseTimeoutEvent => s.phaseTimer
    case QueryTimeoutEvent(silent, cookies) =>
      s.queryTimer && multiset(silent) == s.queryClients && CookiesFor(s, silent, cookies)
    case ResponseEvent(_, _, _, _, cookie) => cookie !in Cookies(s.inhibitors)
    case DisconnectedEvent(c) => c in s.clients
    case BusNameLostEvent(bus, order) => bus != "" && Traversal(order, OnBus(s.clients, Some(bus)))
    case BusDisconnectedEvent(order) => Traversal(order, OnBus(s.clients, None))
    case InhibitEvent(_, _, _, _, cookie) => cookie !in Cookies(s.inhibitors)
    case DialogAnsweredEvent(_) => s.dialog.Some?
    case PrivilegesEvent(reboot, _, _) => reboot in s.privileges
    case ConfirmationEvent(_, _) => s.confirmation && s.logoutMode == Normal
    case _ => true
  }

  ghost function Step(s: Session, e: Event, env: Env): (r: Session)
    requires Enabled(s, e)
  {
    match e
    case StartEvent => Start(s, env)
    case AppSignalEvent(a) => AppSignal(s, a, env)
    case PhaseTimeoutEvent => PhaseTimeout(s, env)
    case QueryTimeoutEvent(silent, cookies) => QueryTimeout(s, silent, cookies, env)
    case ResponseEvent(c, ok, last, cancel, cookie) => HandleResponse(s, c, ok, last, cancel, cookie, env)
    case ConnectedEvent(c) => ClientConnected(s, c)
    case DisconnectedEvent(c) => ClientDisconnected(s, c, env)
    case BusNameLostEvent(bus, order) => BusNameLost(s, bus, order, env)
    case BusDisconnectedEvent(order) => BusDisconnected(s, order, env)
    case InhibitEvent(appId, reason, flags, sender, cookie) => Inhibit(s, appId, reason, flags, sender, cookie)
    case UninhibitEvent(cookie) => Uninhibit(s, cookie, env)
    case DialogAnsweredEvent(accept) => InhibitDialogResponse(s, accept, env)
    case LogoutEvent(mode) => LogoutCall(s, mode, env)
    case ShutdownEvent => ShutdownCall(s, env)
    case RequestPowerEvent(reboot, asked) => RequestPowerCall(s, reboot, asked, env)
    case PrivilegesEvent(reboot, success, askLater) => PrivilegesCompleted(s, reboot, success, askLater, env)
    case ConfirmationEvent(answer, asked) => ConfirmationAnswered(s, answer, asked, env)
  }

  ghost predicate Follows(s: Session, r: Session) {
    exists e, env :: Enabled(s, e) && r == Step(s, e, env)
  }

  ghost predicate FollowsAt(run: seq<Session>, k: nat)
    requires k + 1 < |run|
  {
    Follows(run[k], run[k + 1])
  }

  /** The states between events, from the creation of the object on. */
  ghost predicate IsRun(run: seq<Session>) {
    && |run| > 0 && (exists apps :: run[0] == Created(apps))
    && (forall k: nat :: k + 1 < |run| ==> FollowsAt(run, k))
  }

  // ---------- Every step keeps the invariant ----------

  lemma StartInv(s: Session, env: Env)
    requires Inv(s) && s.phase == STARTUP
    ensures Inv(Start(s, env))
  {
    var s1 := s.(phase := INITIALIZATION);
    assert Core(s1);
    assert PhaseProofs.Starting(s1);
    PhaseProofs.StartPhaseInv(s1, env);
  }

  lemma ConnectedInv(s: Session, c: Client)
    requires Inv(s)
    ensures Inv(ClientConnected(s, c))
  {
    ClientsFrame(s, s.clients + {c});
  }

  lemma InhibitInv(s: Session, appId: string, reason: string, flags: nat, sender: string, cookie: nat)
    requires Inv(s) && cookie !in Cookies(s.inhibitors)
    ensures Inv(Inhibit(s, appId, reason, flags, sender, cookie))
  {
    if InhibitError(s, appId, reason, flags).None? {
      AddInv(s, Inhibitor(cookie, None, Some(sender), flags));
    }
  }

  lemma LogoutInv(s: Session, mode: Option<LogoutMode>, env: Env)
    requires Inv(s)
    ensures Inv(LogoutCall(s, mode, env))
  {
    if LogoutError(s, mode, env).None? {
      if mode.value == Normal && env.logoutPrompt {
        ConfirmationShownInv(s);
      } else {
        ModeInv(s, mode.value);
        RequestInv(s.(logoutMode := mode.value), Logout, env);
      }
    }
  }

  lemma PrivilegesFrame(s: Session, privileges: set<bool>)
    requires Inv(s) && s.phase >= RUNNING
    ensures Inv(s.(privileges := privileges))
  {
    assert Core(s.(privileges := privileges));
  }

  lemma RequestPowerInv(s: Session, reboot: bool, asked: bool, env: Env)
    requires Inv(s) && s.phase >= RUNNING
    ensures Inv(RequestPower(s, reboot, asked, env))
  {
    if asked {
      PrivilegesFrame(s, s.privileges + {reboot});
    } else {
      RequestInv(s, if reboot then RebootCdm else ShutdownCdm, env);
    }
  }

  lemma DialogAnsweredInv(s: Session, accept: bool, env: Env)
    requires Inv(s) && s.dialog.Some?
    ensures Inv(InhibitDialogResponse(s, accept, env))
  {
    DialogResponseInv(s, accept, env);
  }

  lemma ShutdownInv(s: Session, env: Env)
    requires Inv(s)
    ensures Inv(ShutdownCall(s, env))
  {
    if ShutdownError(s, env).None? {
      ConfirmationShownInv(s);
    }
  }

  lemma RequestPowerCallInv(s: Session, reboot: bool, asked: bool, env: Env)
    requires Inv(s)
    ensures Inv(RequestPowerCall(s, reboot, asked, env))
  {
    if s.phase == RUNNING {
      RequestPowerInv(s, reboot, asked, env);
    }
  }

  lemma PrivilegesInv(s: Session, reboot: bool, success: bool, askLater: bool, env: Env)
    requires Inv(s) && reboot in s.privileges
    ensures Inv(PrivilegesCompleted(s, reboot, success, askLater, env))
  {
    var s1 := s.(privileges := s.privileges - {reboot});
    PrivilegesFrame(s, s.privileges - {reboot});
    if success {
      RequestInv(s1, if reboot then (if askLater then RebootInteract else Reboot)
                     else (if askLater then ShutdownInteract else Shutdown), env);
    }
  }

  lemma RequestSuspendInv(s: Session, action: LogoutAction, env: Env)
    requires Inv(s) && !action.EndsSession()
    ensures Inv(RequestSuspend(s, action, env))
  {
    if action.SwitchUserAction? && env.switchLockedDown {
    } else if !AnyFlag(s.inhibitors, FlagFor(action)) {
      PowerInv(s, action, env);
    } else {
      var i :| i in s.inhibitors && HasFlag(s.inhibitors[i].flags, FlagFor(action));
      assert i in s.inhibitors.Keys;
      ShowInv(s, action);
    }
  }

  lemma ConfirmationFrame(s: Session, mode: LogoutMode)
    requires Inv(s) && s.confirmation && s.logoutMode == Normal && mode != Force
    ensures Inv(s.(confirmation := false, logoutMode := mode))
  {
    var s1 := s.(confirmation := false, logoutMode := mode);
    assert Core(s1);
  }

  lemma ConfirmationInv(s: Session, answer: Confirmation, asked: bool, env: Env)
    requires Inv(s) && s.confirmation && s.logoutMode == Normal
    ensures Inv(ConfirmationAnswered(s, answer, asked, env))
  {
    ConfirmationFrame(s, Normal);
    ConfirmationFrame(s, NoConfirmation);
    var s1 := s.(confirmation := false);
    assert s1 == s.(confirmation := false, logoutMode := Normal);
    match answer
    case Declined =>
    case Confirmed(LogoutAction) => RequestInv(s1.(logoutMode := NoConfirmation), Logout, env);
    case Confirmed(RebootAction) => RequestPowerInv(s1, true, asked, env);
    case Confirmed(ShutdownAction) => RequestPowerInv(s1, false, asked, env);
    case Confirmed(action) => RequestSuspendInv(s1, action, env);
  }

  /** Requests to end the session, as against what happens to it. */
  predicate IsRequest(e: Event) {
    e.LogoutEvent? || e.ShutdownEvent? || e.RequestPowerEvent? || e.PrivilegesEvent? || e.ConfirmationEvent?
  }

  lemma RequestStepInv(s: Session, e: Event, env: Env)
    requires Inv(s) && Enabled(s, e) && IsRequest(e)
    ensures Inv(Step(s, e, env))
  {
    match e
    case LogoutEvent(mode) => LogoutInv(s, mode, env);
    case ShutdownEvent => ShutdownInv(s, env);
    case RequestPowerEvent(reboot, asked) => RequestPowerCallInv(s, reboot, asked, env);
    case PrivilegesEvent(reboot, success, askLater) => PrivilegesInv(s, reboot, success, askLater, env);
    case ConfirmationEvent(answer, asked) => ConfirmationInv(s, answer, asked, env);
  }

  lemma OtherStepInv(s: Session, e: Event, env: Env)
    requires Inv(s) && Enabled(s, e) && !IsRequest(e)
    ensures Inv(Step(s, e, env))
  {
    match e
    case StartEvent => StartInv(s, env);
    case AppSignalEvent(a) => AppSignalInv(s, a, env);
    case PhaseTimeoutEvent => PhaseTimeoutInv(s, env);
    case QueryTimeoutEvent(silent, cookies) => QueryTimeoutInv(s, silent, cookies, env);
    case ResponseEvent(c, ok, last, cancel, cookie) => HandleResponseInv(s, c, ok, last, cancel, cookie, env);
    case ConnectedEvent(c) => ConnectedInv(s, c);
    case DisconnectedEvent(c) => ClientDisconnectedInv(s, c, env);
    case BusNameLostEvent(bus, order) => BusNameLostInv(s, bus, order, env);
    case BusDisconnectedEvent(order) => BusDisconnectedInv(s, order, env);
    case InhibitEvent(appId, reason, flags, sender, cookie) => InhibitInv(s, appId, reason, flags, sender, cookie);
    case UninhibitEvent(cookie) => UninhibitInv(s, cookie, env);
    case DialogAnsweredEvent(accept) => DialogAnsweredInv(s, accept, env);
  }

  lemma StepInv(s: Session, e: Event, env: Env)
    requires Inv(s) && Enabled(s, e)
    ensures Inv(Step(s, e, env))
  {
    if IsRequest(e) {
      RequestStepInv(s, e, env);
    } else {
      OtherStepInv(s, e, env);
    }
  }

  lemma FollowsInv(s: Session, r: Session)
    requires Inv(s) && Follows(s, r)
    ensures Inv(r)
  {
    var e, env :| Enabled(s, e) && r == Step(s, e, env);
    StepInv(s, e, env);
  }

  lemma FirstInv(run: seq<Session>)
    requires IsRun(run)
    ensures Inv(run[0])
  {
    var apps :| run[0] == Created(apps);
    CreatedInv(apps);
  }

  lemma NextInv(run: seq<Session>, k: nat)
    requires IsRun(run) && k + 1 < |run| && Inv(run[k])
    ensures Inv(run[k + 1])
  {
    assert FollowsAt(run, k);
    FollowsInv(run[k], run[k + 1]);
  }

  lemma {:induction false} RunInv(run: seq<Session>, k: nat)
    requires IsRun(run) && k < |run|
    ensures Inv(run[k])
  {
    if k == 0 {
      FirstInv(run);
    } else {
      RunInv(run, k - 1);
      NextInv(run, k - 1);
    }
  }
}
