/**
 What each function of csm-manager.c does to the manager's fields, as functions
 from snapshot to snapshot. The methods of `SessionManager.Manager` are proved
 equal to these; the safety results are lemmas about these.
 */
module SessionSpec {
  import opened SessionTypes

  // ---------- Inhibitors ----------

  ghost predicate LogoutInhibited(s: Session) {
    AnyFlag(s.inhibitors, LOGOUT_FLAG)
  }

  /** `update_idle`: idleness is watched for exactly when nothing inhibits it. */
  ghost function UpdateIdle(s: Session): (r: Session) {
    s.(idleEnabled := !AnyFlag(s.inhibitors, IDLE_FLAG))
  }

  function AddRow(dialog: Option<Dialog>, id: nat): (r: Option<Dialog>) {
    if dialog.Some? then Some(dialog.value.(rows := dialog.value.rows + {id})) else None
  }

  /** `csm_store_add` on the inhibitor store, with both "added" handlers. */
  ghost function AddInhibitor(s: Session, inhibitor: Inhibitor): (r: Session) {
    var id := s.nextInhibitor;
    UpdateIdle(s.(
      inhibitors := s.inhibitors[id := inhibitor],
      nextInhibitor := id + 1,
      dialog := AddRow(s.dialog, id)))
  }

  function JitInhibitor(c: Client, cookie: nat): (r: Inhibitor) {
    Inhibitor(cookie, Some(c), c.bus, LOGOUT_FLAG)
  }

  /** `csm_store_remove` or `csm_store_foreach_remove` on the inhibitor store: the ids in `gone` leave,
      the dialog drops their rows, and a dialog left without rows accepts itself. */
  ghost function RemoveInhibitors(s: Session, gone: set<nat>, env: Env): (r: Session)
  {
    if s.inhibitors.Keys !! gone then s
    else
      var s1 := UpdateIdle(s.(inhibitors := s.inhibitors - gone));
      match s.dialog
      case None => s1
      case Some(d) =>
        var s2 := s1.(dialog := Some(d.(rows := d.rows - gone)));
        if d.rows - gone == {} then InhibitDialogResponse(s2, true, env) else s2
  }

  // ---------- Ending and starting phases ----------

  function Quit(s: Session): (r: Session) {
    s.(history := s.history.(quit := Some(s.logoutType)))
  }

  ghost function Snapshot(s: Session, why: Cause, env: Env): (d: Departure) {
    Departure(s.phase, why, s.logoutMode, LogoutInhibited(s), s.history.Unresolved(), s.queryClients,
              s.nextQueryClients, s.clients, env.lockedDown)
  }

  /** The note `end_phase` leaves in the history. */
  ghost function Depart(s: Session, why: Cause, env: Env): (h: History) {
    s.history.(departures := s.history.departures + [Snapshot(s, why, env)])
  }

  /** `end_phase` and `start_phase` both drop the lists and stop the phase timer. */
  function ClearLists(s: Session): (r: Session) {
    s.(pendingApps := multiset{}, queryClients := multiset{}, nextQueryClients := [], phaseTimer := false)
  }

  ghost function Advance(s: Session, why: Cause, env: Env): (r: Session)
    requires s.phase < EXIT
  {
    var h := Depart(s, why, env);
    ClearLists(s).(phase := s.phase + 1,
                   history := if s.phase == END_SESSION && env.autoSave then h.(saves := h.saves + 1) else h)
  }

  ghost function EndPhase(s: Session, why: Cause, env: Env): (r: Session)
    decreases EXIT - s.phase, 0
  {
    if s.phase == RUNNING && env.lockedDown then ClearLists(s)
    else if s.phase == EXIT then Quit(ClearLists(s))
    else StartPhase(Advance(s, why, env), env)
  }

  ghost function StartPhase(s: Session, env: Env): (r: Session)
    decreases EXIT - s.phase, 2
  {
    var s1 := ClearLists(s).(queryTimer := false);
    if s.phase <= APPLICATION then DoPhaseStartup(s1, env)
    else if s.phase == RUNNING then UpdateIdle(s1)
    else if s.phase == QUERY_END_SESSION then DoPhaseQueryEndSession(s1, env)
    else if s.phase == END_SESSION then DoPhaseEndSession(s1, env)
    else DoPhaseExit(s1, env)
  }

  /** The apps whose launch is waited for: those that started, before APPLICATION. */
  predicate Awaits(info: AppInfo, phase: Phase, a: App, env: Env) {
    Eligible(info, phase) && phase < APPLICATION && env.launches(a)
  }

  function Awaited(s: Session, env: Env): (r: set<App>) {
    set a | a in s.apps && Awaits(s.apps[a], s.phase, a, env)
  }

  function NoteLaunch(s: Session, attempted: set<App>): (h: History) {
    s.history.(launches := s.history.launches + [Launch(s.phase, attempted, s.history.waiting)])
  }

  /** Launching every eligible app of the current phase. */
  function LaunchApps(s: Session, env: Env): (r: Session)
    ensures r.phase == s.phase
  {
    var awaited := Awaited(s, env);
    s.(pendingApps := s.pendingApps + multiset(awaited),
       handlers := s.handlers + awaited,
       history := NoteLaunch(s, EligibleApps(s.apps, s.phase)).(waiting := s.history.waiting + awaited))
  }

  ghost function DoPhaseStartup(s: Session, env: Env): (r: Session)
    decreases EXIT - s.phase, 1
  {
    var s1 := LaunchApps(s, env);
    if s1.pendingApps != multiset{} then
      if s1.phase < APPLICATION then s1.(phaseTimer := true) else s1
    else
      EndPhase(s1, NothingToStart, env)
  }

  function Reached(s: Session, m: Message, env: Env): (r: set<Client>) {
    set c | c in s.clients && env.delivers(m, c)
  }

  function DoPhaseQueryEndSession(s: Session, env: Env): (r: Session) {
    var to := Reached(s, QueryMessage, env);
    s.(queryClients := s.queryClients + multiset(to), queryTimer := true, history := s.history.Queried(to))
  }

  function AddRound(s: Session, to: multiset<Client>, last: bool, env: Env): (r: Session) {
    var round := Round(to, s.logoutMode == Force, env.autoSave, last, s.queryClients, s.history.askedLast);
    s.(queryClients := s.queryClients + to, history := s.history.(rounds := s.history.rounds + [round]))
  }

  ghost function DoPhaseEndSession(s: Session, env: Env): (r: Session)
    decreases EXIT - s.phase, 1
  {
    var s1 := s.(phaseTimer := false);
    if s.clients != {} then
      AddRound(s1.(phaseTimer := true), multiset(Reached(s, EndMessage, env)), false, env)
    else
      EndPhase(s1, NoClients, env)
  }

  /** The clients of `cs`, in order and with repetitions, that the message reaches. */
  function Delivered(cs: seq<Client>, m: Message, env: Env): (r: seq<Client>) {
    if cs == [] then []
    else (if env.delivers(m, cs[0]) then [cs[0]] else []) + Delivered(cs[1..], m, env)
  }

  ghost function DoPhaseEndSessionPart2(s: Session, env: Env): (r: Session)
    decreases EXIT - s.phase, 1
  {
    if s.nextQueryClients != [] then
      AddRound(s, multiset(Delivered(s.nextQueryClients, LastMessage, env)), true, env).(nextQueryClients := [])
    else
      EndPhase(s, RepliesIn, env)
  }

  ghost function DoPhaseExit(s: Session, env: Env): (r: Session)
    decreases EXIT - s.phase, 1
  {
    EndPhase(s.(history := s.history.(stopped := s.history.stopped + [Reached(s, StopMessage, env)])), Exiting, env)
  }

  // ---------- Cancelling, and the inhibit dialog ----------

  ghost function CancelEndSession(s: Session, env: Env): (r: Session) {
    if s.phase < QUERY_END_SESSION then s
    else
      var s1 := UpdateIdle(s.(dialog := None, inhibitors := s.inhibitors - Jit(s.inhibitors)));
      var h := s.history.(cancelled := s.history.cancelled + [Reached(s, CancelMessage, env)], quit := None);
      StartPhase(s1.(phase := RUNNING, logoutMode := Normal, logoutType := NoLogout, history := h), env)
  }

  function PowerAction(s: Session, action: LogoutAction, env: Env): (r: Session) {
    if action.SwitchUserAction? && env.switchLockedDown then s
    else s.(history := s.history.(power := s.history.power + [action]))
  }

  ghost function DoInhibitDialogAction(s: Session, action: LogoutAction, env: Env): (r: Session)
  {
    if action.EndsSession() then EndPhase(s.(logoutMode := Force), DialogAccepted, env)
    else PowerAction(s, action, env)
  }

  /** The dialog is destroyed before its answer is acted on. */
  function DialogClosed(s: Session): (r: Session)
    requires s.dialog.Some?
    ensures r.phase == s.phase && r.dialog == None && r.inhibitors == s.inhibitors && r.apps == s.apps
    ensures r.history == s.history
  {
    s.(dialog := None)
  }

  ghost function InhibitDialogResponse(s: Session, accept: bool, env: Env): (r: Session)
    requires s.dialog.Some?
  {
    if accept then DoInhibitDialogAction(DialogClosed(s), s.dialog.value.action, env)
    else if s.dialog.value.action.EndsSession() then CancelEndSession(DialogClosed(s), env)
    else DialogClosed(s)
  }

  function ActionFor(t: LogoutType): (a: LogoutAction) {
    match t
    case Logout => LogoutAction
    case Reboot | RebootInteract | RebootCdm => RebootAction
    case Shutdown | ShutdownInteract | ShutdownCdm => ShutdownAction
    case NoLogout => LogoutAction
  }

  function ShowInhibitDialog(s: Session, action: LogoutAction): (r: Session) {
    if s.dialog.Some? then s else s.(dialog := Some(Dialog(action, s.inhibitors.Keys)))
  }

  ghost function QueryEndSessionComplete(s: Session, env: Env): (r: Session) {
    var s1 := s.(queryTimer := false);
    if !LogoutInhibited(s1) then EndPhase(s1, QueryComplete, env)
    else ShowInhibitDialog(s1, ActionFor(s1.logoutType))
  }

  // ---------- Events ----------

  ghost function Start(s: Session, env: Env): (r: Session) {
    StartPhase(s.(phase := INITIALIZATION), env)
  }

  function Signalled(s: Session, a: App): (r: Session) {
    s.(pendingApps := s.pendingApps - multiset{a}, handlers := s.handlers - {a},
       history := s.history.(waiting := s.history.waiting - {a}))
  }

  /** An app emitted "registered" or "exited": `app_registered` runs if it is connected to that app. */
  ghost function AppSignal(s: Session, a: App, env: Env): (r: Session) {
    if a !in s.handlers then s.(history := s.history.(waiting := s.history.waiting - {a}))
    else if Signalled(s, a).pendingApps == multiset{} then
      EndPhase(Signalled(s, a).(phaseTimer := false), AppsReady, env)
    else Signalled(s, a)
  }

  /** In a startup phase the pending apps' handlers are disconnected. */
  function TimedOut(s: Session): (r: Session) {
    if s.phase > APPLICATION then s.(phaseTimer := false)
    else
      var late := set a | a in s.pendingApps;
      s.(phaseTimer := false, handlers := s.handlers - late,
         history := s.history.(waiting := s.history.waiting - late))
  }

  ghost function PhaseTimeout(s: Session, env: Env): (r: Session) {
    EndPhase(TimedOut(s), PhaseTimedOut, env)
  }

  /** Adding a "Not responding" inhibitor for each client of `silent`, in order. */
  ghost function InhibitForSilent(s: Session, silent: seq<Client>, cookies: seq<nat>): (r: Session)
    requires |silent| <= |cookies|
    decreases |silent|
  {
    if silent == [] then s
    else InhibitForSilent(AddInhibitor(s, JitInhibitor(silent[0], cookies[0])), silent[1..], cookies[1..])
  }

  /** The loop of the query timeout; `silent` lists the clients still in `query_clients`. */
  ghost function SilentGivenUp(s: Session, silent: seq<Client>, cookies: seq<nat>): (r: Session)
    requires |silent| <= |cookies|
  {
    var s1 := s.(queryTimer := false);
    var s2 := if s.logoutMode == Force then s1 else InhibitForSilent(s1, silent, cookies);
    s2.(queryClients := multiset{})
  }

  ghost function QueryTimeout(s: Session, silent: seq<Client>, cookies: seq<nat>, env: Env): (r: Session)
    requires |silent| <= |cookies|
  {
    QueryEndSessionComplete(SilentGivenUp(s, silent, cookies), env)
  }

  /** The first half of `_handle_client_end_session_response`: the reply is taken off the list
      and turned into an inhibitor, or withdraws the client's inhibitors. */
  ghost function TakeReply(s: Session, c: Client, ok: bool, last: bool, cookie: nat, env: Env): (r: Session) {
    var s1 := s.(queryClients := s.queryClients - multiset{c}, history := s.history.Answered(c, ok, last));
    if !ok && s.logoutMode != Force then AddInhibitor(s1, JitInhibitor(c, cookie))
    else RemoveInhibitors(s1, OwnedBy(s1.inhibitors, c), env)
  }

  /** END_SESSION goes on when nothing is outstanding and nothing inhibits. */
  ghost function AllReplied(s: Session, env: Env): (r: Session) {
    if s.queryClients != multiset{} || LogoutInhibited(s) then s
    else if s.nextQueryClients != [] then DoPhaseEndSessionPart2(s, env)
    else EndPhase(s, RepliesIn, env)
  }

  /** The second half: what the manager goes on to, judged by the phase it is in by then. */
  ghost function AfterReply(s: Session, c: Client, last: bool, env: Env): (r: Session) {
    if s.phase == QUERY_END_SESSION then
      if s.queryClients == multiset{} then QueryEndSessionComplete(s, env) else s
    else if s.phase == END_SESSION then
      AllReplied(if last then s.(nextQueryClients := [c] + s.nextQueryClients) else s, env)
    else s
  }

  ghost function HandleResponse(s: Session, c: Client, ok: bool, last: bool, cancel: bool, cookie: nat, env: Env)
    : (r: Session)
  {
    if s.phase < QUERY_END_SESSION then s
    else if cancel then CancelEndSession(s, env)
    else AfterReply(TakeReply(s, c, ok, last, cookie, env), c, last, env)
  }

  ghost function DisconnectClient(s: Session, c: Client, env: Env): (r: Session) {
    var s1 := RemoveInhibitors(s.(history := s.history.Rule(c, Gone)), OwnedBy(s.inhibitors, c), env);
    if s1.phase == QUERY_END_SESSION then HandleResponse(s1, c, true, false, false, 0, env) else s1
  }

  ghost function ExitIfDeserted(s: Session, env: Env): (r: Session) {
    if s.phase >= QUERY_END_SESSION && s.clients == {} then EndPhase(s, LastClientLeft, env) else s
  }

  ghost function ClientDisconnected(s: Session, c: Client, env: Env): (r: Session) {
    var s1 := DisconnectClient(s, c, env);
    ExitIfDeserted(s1.(clients := s1.clients - {c}), env)
  }

  /** The clients `_disconnect_dbus_client` selects: all on the bus, or those of one bus name. */
  function OnBus(clients: set<Client>, bus: Option<string>): (r: set<Client>) {
    set c | c in clients && c.bus.Some? && (bus.None? || (c.bus == bus && c.bus.value != ""))
  }

  /** The bulk removal visits the clients of `order` one by one; each leaves the store after its visit. */
  ghost function DisconnectAll(s: Session, order: seq<Client>, env: Env): (r: Session)
    decreases |order|
  {
    if order == [] then s
    else
      var s1 := DisconnectClient(s, order[0], env);
      DisconnectAll(s1.(clients := s1.clients - {order[0]}), order[1..], env)
  }

  ghost function RemoveClientsForConnection(s: Session, order: seq<Client>, env: Env): (r: Session) {
    ExitIfDeserted(DisconnectAll(s, order, env), env)
  }

  ghost function BusNameLost(s: Session, bus: string, order: seq<Client>, env: Env): (r: Session) {
    var s1 := s.(history := s.history.BusGone(bus));
    RemoveClientsForConnection(RemoveInhibitors(s1, FromBus(s1.inhibitors, bus), env), order, env)
  }

  ghost function BusDisconnected(s: Session, order: seq<Client>, env: Env): (r: Session) {
    RemoveClientsForConnection(s.(busDisconnected := true), order, env)
  }

  function ClientConnected(s: Session, c: Client): (r: Session) {
    s.(clients := s.clients + {c})
  }

  datatype Error = GeneralError | NotInRunning | LockedDown | InvalidOption

  /** The checks of `csm_manager_inhibit`, in order. */
  function InhibitError(s: Session, appId: string, reason: string, flags: nat): (e: Option<Error>) {
    if s.logoutMode == Force || appId == "" || reason == "" || flags == 0 then Some(GeneralError) else None
  }

  ghost function Inhibit(s: Session, appId: string, reason: string, flags: nat, sender: string, cookie: nat)
    : (r: Session)
  {
    if InhibitError(s, appId, reason, flags).Some? then s
    else AddInhibitor(s, Inhibitor(cookie, None, Some(sender), flags))
  }

  /** `csm_store_find` with `_find_by_cookie`: some inhibitor carrying the cookie. */
  ghost function FindByCookie(inhibitors: map<nat, Inhibitor>, cookie: nat): (r: Option<nat>)
    ensures r.Some? ==> r.value in inhibitors && inhibitors[r.value].cookie == cookie
    ensures r.None? ==> forall i :: i in inhibitors ==> inhibitors[i].cookie != cookie
  {
    if i :| i in inhibitors && inhibitors[i].cookie == cookie then Some(i) else None
  }

  /** Withdrawing a JIT inhibitor by its cookie waives its client's objection. */
  function Waive(h: History, inhibitor: Inhibitor): (r: History) {
    if inhibitor.owner.Some? then h.Rule(inhibitor.owner.value, Waived) else h
  }

  ghost function Uninhibit(s: Session, cookie: nat, env: Env): (r: Session) {
    match FindByCookie(s.inhibitors, cookie)
    case None => s
    case Some(i) =>
      RemoveInhibitors(s.(history := Waive(s.history, s.inhibitors[i])), {i}, env)
  }

  // ---------- Requests to end the session ----------

  /** The three places that set the logout type and call `end_phase`. */
  function Requesting(s: Session, t: LogoutType): (r: Session) {
    s.(logoutType := t, history := s.history.Asks(t, s.phase))
  }

  ghost function Request(s: Session, t: LogoutType, env: Env): (r: Session) {
    EndPhase(Requesting(s, t), Requested, env)
  }

  function LogoutError(s: Session, mode: Option<LogoutMode>, env: Env): (e: Option<Error>) {
    if s.phase != RUNNING then Some(NotInRunning)
    else if env.lockedDown then Some(LockedDown)
    else if mode.None? then Some(InvalidOption)
    else None
  }

  function ShowConfirmation(s: Session): (r: Session) {
    if s.phase >= QUERY_END_SESSION then s else s.(logoutMode := Normal, confirmation := true)
  }

  /** `csm_manager_logout`; `mode` is None for a flag value the interface does not define. */
  ghost function LogoutCall(s: Session, mode: Option<LogoutMode>, env: Env): (r: Session) {
    if LogoutError(s, mode, env).Some? then s
    else if mode.value == Normal && env.logoutPrompt then ShowConfirmation(s)
    else Request(s.(logoutMode := mode.value), Logout, env)
  }

  function ShutdownError(s: Session, env: Env): (e: Option<Error>) {
    if s.phase != RUNNING then Some(NotInRunning) else if env.lockedDown then Some(LockedDown) else None
  }

  function ShutdownCall(s: Session, env: Env): (r: Session) {
    if ShutdownError(s, env).Some? then s else ShowConfirmation(s)
  }

  /** `request_reboot` and `request_shutdown`: ask for the privilege, or fall back on the display manager. */
  ghost function RequestPower(s: Session, reboot: bool, asked: bool, env: Env): (r: Session) {
    if asked then s.(privileges := s.privileges + {reboot})
    else Request(s, if reboot then RebootCdm else ShutdownCdm, env)
  }

  ghost function RequestPowerCall(s: Session, reboot: bool, asked: bool, env: Env): (r: Session) {
    if s.phase != RUNNING then s else RequestPower(s, reboot, asked, env)
  }

  /** The privilege request was answered; there is no phase check here. */
  ghost function PrivilegesCompleted(s: Session, reboot: bool, success: bool, askLater: bool, env: Env): (r: Session) {
    var s1 := s.(privileges := s.privileges - {reboot});
    if !success then s1
    else Request(s1, if reboot then (if askLater then RebootInteract else Reboot)
                     else (if askLater then ShutdownInteract else Shutdown), env)
  }

  function FlagFor(action: LogoutAction): (f: nat)
    requires !action.EndsSession()
    ensures f > 0
  {
    if action.SwitchUserAction? then SWITCH_USER_FLAG else SUSPEND_FLAG
  }

  /** `request_suspend`, `request_hibernate` and `request_switch_user`. */
  ghost function RequestSuspend(s: Session, action: LogoutAction, env: Env): (r: Session)
    requires !action.EndsSession()
  {
    if action.SwitchUserAction? && env.switchLockedDown then s
    else if !AnyFlag(s.inhibitors, FlagFor(action)) then PowerAction(s, action, env)
    else ShowInhibitDialog(s, action)
  }

  datatype Confirmation = Declined | Confirmed(action: LogoutAction)

  /** `logout_dialog_response`; there is no phase check here. */
  ghost function ConfirmationAnswered(s: Session, answer: Confirmation, asked: bool, env: Env): (r: Session) {
    var s1 := s.(confirmation := false);
    match answer
    case Declined => s1
    case Confirmed(LogoutAction) => Request(s1.(logoutMode := NoConfirmation), Logout, env)
    case Confirmed(RebootAction) => RequestPower(s1, true, asked, env)
    case Confirmed(ShutdownAction) => RequestPower(s1, false, asked, env)
    case Confirmed(action) => RequestSuspend(s1, action, env)
  }
}
