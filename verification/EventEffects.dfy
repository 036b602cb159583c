/**
 The other way round: not what each event does, but, field by field, which
 events change it and to what. The tables name no function of the program; that
 every step follows them is one theorem.
 */
module EventEffects {
  import opened SessionTypes
  import opened SessionSpec
  import opened SessionInvariant
  import opened SessionRuns
  import opened LastingFields
  import EventProofs
  import PhaseProofs
  import ReplyProofs
  import opened SessionTheorems

  // ---------- Who is connected, and who inhibits ----------

  function ClientsAfter(s: Session, e: Event): (r: set<Client>) {
    match e
    case ConnectedEvent(c) => s.clients + {c}
    case DisconnectedEvent(c) => s.clients - {c}
    case BusNameLostEvent(bus, _) => set c | c in s.clients && c.bus != Some(bus)
    case BusDisconnectedEvent(_) => set c | c in s.clients && c.bus == None
    case _ => s.clients
  }

  function Unowned(inhibitors: map<nat, Inhibitor>): (r: map<nat, Inhibitor>) {
    map i | i in inhibitors && inhibitors[i].owner == None :: inhibitors[i]
  }

  function NotOf(inhibitors: map<nat, Inhibitor>, c: Client): (r: map<nat, Inhibitor>) {
    map i | i in inhibitors && inhibitors[i].owner != Some(c) :: inhibitors[i]
  }

  /** An inhibitor in the name of each silent client, at the next free places. */
  function WithSilent(inhibitors: map<nat, Inhibitor>, next: nat, silent: seq<Client>, cookies: seq<nat>)
    : (r: map<nat, Inhibitor>)
    requires |silent| <= |cookies|
    decreases |silent|
  {
    if silent == [] then inhibitors
    else
      var blamed := Inhibitor(cookies[0], Some(silent[0]), silent[0].bus, LOGOUT_FLAG);
      WithSilent(inhibitors[next := blamed], next + 1, silent[1..], cookies[1..])
  }

  ghost function InhibitorsAfter(s: Session, e: Event): (r: map<nat, Inhibitor>)
    requires Enabled(s, e)
  {
    match e
    case InhibitEvent(appId, reason, flags, sender, cookie) =>
      if s.logoutMode == Force || appId == "" || reason == "" || flags == 0 then s.inhibitors
      else s.inhibitors[s.nextInhibitor := Inhibitor(cookie, None, Some(sender), flags)]
    case UninhibitEvent(cookie) => map i | i in s.inhibitors && s.inhibitors[i].cookie != cookie :: s.inhibitors[i]
    case DisconnectedEvent(c) => NotOf(s.inhibitors, c)
    case BusNameLostEvent(bus, _) => map i | i in s.inhibitors && s.inhibitors[i].bus != Some(bus) :: s.inhibitors[i]
    case BusDisconnectedEvent(_) =>
      map i | i in s.inhibitors && !(s.inhibitors[i].owner.Some? && s.inhibitors[i].owner.value in s.clients
                                     && s.inhibitors[i].owner.value.bus.Some?) :: s.inhibitors[i]
    case ResponseEvent(c, ok, _, cancel, cookie) =>
      if s.phase < QUERY_END_SESSION then s.inhibitors
      else if cancel then Unowned(s.inhibitors)
      else if ok || s.logoutMode == Force then NotOf(s.inhibitors, c)
      else s.inhibitors[s.nextInhibitor := Inhibitor(cookie, Some(c), c.bus, LOGOUT_FLAG)]
    case QueryTimeoutEvent(silent, cookies) =>
      if s.logoutMode == Force then s.inhibitors
      else WithSilent(s.inhibitors, s.nextInhibitor, silent, cookies)
    case DialogAnsweredEvent(false) =>
      if s.dialog.value.action.EndsSession() then Unowned(s.inhibitors) else s.inhibitors
    case _ => s.inhibitors
  }

  /** Every new inhibitor gets a number of its own. */
  function NextAfter(s: Session, e: Event): (r: nat) {
    match e
    case InhibitEvent(appId, reason, flags, _, _) =>
      if s.logoutMode == Force || appId == "" || reason == "" || flags == 0 then s.nextInhibitor
      else s.nextInhibitor + 1
    case ResponseEvent(_, false, _, false, _) =>
      if s.phase < QUERY_END_SESSION || s.logoutMode == Force then s.nextInhibitor else s.nextInhibitor + 1
    case QueryTimeoutEvent(silent, _) =>
      if s.logoutMode == Force then s.nextInhibitor else s.nextInhibitor + |silent|
    case _ => s.nextInhibitor
  }

  // ---------- What the session is asked to do ----------

  /** The kind of end that an event asks for, when it is one the manager acts on. */
  function Wanted(s: Session, e: Event, env: Env): (t: Option<LogoutType>) {
    match e
    case LogoutEvent(Some(mode)) =>
      if s.phase == RUNNING && !env.lockedDown && !(mode == Normal && env.logoutPrompt) then Some(Logout) else None
    case RequestPowerEvent(true, false) => if s.phase == RUNNING then Some(RebootCdm) else None
    case RequestPowerEvent(false, false) => if s.phase == RUNNING then Some(ShutdownCdm) else None
    case PrivilegesEvent(true, true, true) => Some(RebootInteract)
    case PrivilegesEvent(true, true, false) => Some(Reboot)
    case PrivilegesEvent(false, true, true) => Some(ShutdownInteract)
    case PrivilegesEvent(false, true, false) => Some(Shutdown)
    case ConfirmationEvent(Confirmed(LogoutAction), _) => Some(Logout)
    case ConfirmationEvent(Confirmed(RebootAction), false) => Some(RebootCdm)
    case ConfirmationEvent(Confirmed(ShutdownAction), false) => Some(ShutdownCdm)
    case _ => None
  }

  ghost function TypeAfter(s: Session, e: Event, env: Env): (t: LogoutType)
    requires Enabled(s, e)
  {
    if Wanted(s, e, env).Some? then Wanted(s, e, env).value else if Cancels(s, e) then NoLogout else s.logoutType
  }

  function RequestsAfter(s: Session, e: Event, env: Env): (r: seq<LogoutType>) {
    match Wanted(s, e, env)
    case None => s.history.requests
    case Some(t) => if s.phase <= RUNNING then [t] else s.history.requests + [t]
  }

  /** The privileges being asked for: true is the one to reboot, false the one to shut down. */
  function PrivilegesAfter(s: Session, e: Event): (r: set<bool>) {
    match e
    case RequestPowerEvent(reboot, true) => if s.phase == RUNNING then s.privileges + {reboot} else s.privileges
    case ConfirmationEvent(Confirmed(RebootAction), true) => s.privileges + {true}
    case ConfirmationEvent(Confirmed(ShutdownAction), true) => s.privileges + {false}
    case PrivilegesEvent(reboot, _, _) => s.privileges - {reboot}
    case _ => s.privileges
  }

  function ConfirmationAfter(s: Session, e: Event, env: Env): (up: bool) {
    match e
    case LogoutEvent(Some(Normal)) => s.confirmation || (s.phase == RUNNING && !env.lockedDown && env.logoutPrompt)
    case ShutdownEvent => s.confirmation || (s.phase == RUNNING && !env.lockedDown)
    case ConfirmationEvent(_, _) => false
    case _ => s.confirmation
  }

  // ---------- Suspending, hibernating and switching users ----------

  ghost predicate Blocked(s: Session, action: LogoutAction) {
    exists i :: i in s.inhibitors
                && HasFlag(s.inhibitors[i].flags, if action == SwitchUserAction then SWITCH_USER_FLAG else SUSPEND_FLAG)
  }

  function Bit(on: bool): (b: nat) {
    if on then 1 else 0
  }

  /** The flags word holds four bits, and whatever else the caller set above them. */
  lemma FlagsAreBits(logout: bool, switchUser: bool, suspend: bool, idle: bool, rest: nat)
    ensures var flags := Bit(logout) + 2 * Bit(switchUser) + 4 * Bit(suspend) + 8 * Bit(idle) + 16 * rest;
      && (HasFlag(flags, LOGOUT_FLAG) <==> logout) && (HasFlag(flags, SWITCH_USER_FLAG) <==> switchUser)
      && (HasFlag(flags, SUSPEND_FLAG) <==> suspend) && (HasFlag(flags, IDLE_FLAG) <==> idle)
  {
    var n3 := Bit(idle) + 2 * rest;
    var n2 := Bit(suspend) + 2 * n3;
    var n1 := Bit(switchUser) + 2 * n2;
    var flags := Bit(logout) + 2 * n1;
    LowBit(logout, n1);
    LowBit(switchUser, n2);
    LowBit(suspend, n3);
    LowBit(idle, rest);
    Halves(flags);
  }

  lemma LowBit(on: bool, n: nat)
    ensures (Bit(on) + 2 * n) % 2 == Bit(on) && (Bit(on) + 2 * n) / 2 == n
  {
  }

  lemma Halves(n: nat)
    ensures n / 4 == n / 2 / 2 && n / 8 == n / 2 / 2 / 2
  {
  }

  predicate Locked(action: LogoutAction, env: Env) {
    action == SwitchUserAction && env.switchLockedDown
  }

  /** The dialog that is up loses its last inhibitor, not by being turned down. */
  ghost predicate Lapses(s: Session, e: Event)
    requires Enabled(s, e)
  {
    s.inhibitors != map[] && InhibitorsAfter(s, e) == map[] && !Cancels(s, e)
  }

  /** The power action that an event has carried out, if any. */
  ghost function Performed(s: Session, e: Event, env: Env): (a: Option<LogoutAction>)
    requires Enabled(s, e)
  {
    var asked := SleepOf(s.dialog);
    match e
    case ConfirmationEvent(Confirmed(action), _) =>
      if !action.EndsSession() && !Locked(action, env) && !Blocked(s, action) then Some(action) else None
    case DialogAnsweredEvent(accept) => if accept && asked.Some? && !Locked(asked.value, env) then asked else None
    case _ => if asked.Some? && Lapses(s, e) && !Locked(asked.value, env) then asked else None
  }

  /** The power action that an open dialog asks about. */
  ghost function SleepAfter(s: Session, e: Event, env: Env): (a: Option<LogoutAction>)
    requires Enabled(s, e)
  {
    match e
    case ConfirmationEvent(Confirmed(action), _) =>
      if !action.EndsSession() && !Locked(action, env) && Blocked(s, action) && s.dialog == None then Some(action)
      else SleepOf(s.dialog)
    case DialogAnsweredEvent(_) => None
    case _ => if Cancels(s, e) || Lapses(s, e) then None else SleepOf(s.dialog)
  }

  ghost function LastingAfter(s: Session, e: Event, env: Env): (l: Lasting)
    requires Enabled(s, e)
  {
    Lasting(
      ClientsAfter(s, e),
      InhibitorsAfter(s, e),
      NextAfter(s, e),
      TypeAfter(s, e, env),
      ConfirmationAfter(s, e, env),
      PrivilegesAfter(s, e),
      s.busDisconnected || e.BusDisconnectedEvent?,
      s.apps,
      SleepAfter(s, e, env),
      s.history.power + (if Performed(s, e, env).Some? then [Performed(s, e, env).value] else []),
      s.history.cancelled + (if Cancels(s, e) then [set c | c in s.clients && env.delivers(CancelMessage, c)] else []),
      RequestsAfter(s, e, env))
  }

  // ---------- Every step follows the tables ----------

  /** What the tables say of an event that is no request, no cancellation and no answer of the dialog. */
  lemma OtherTable(s: Session, e: Event, env: Env)
    requires Enabled(s, e) && !IsRequest(e) && !Cancels(s, e) && !e.DialogAnsweredEvent?
    ensures LastingAfter(s, e, env)
         == LastingOf(s).(clients := ClientsAfter(s, e), inhibitors := InhibitorsAfter(s, e),
                          nextInhibitor := NextAfter(s, e),
                          busDisconnected := s.busDisconnected || e.BusDisconnectedEvent?,
                          sleep := SleepAfter(s, e, env),
                          power := s.history.power
                                   + if Performed(s, e, env).Some? then [Performed(s, e, env).value] else [])
  {
    assert s.history.cancelled + [] == s.history.cancelled;
  }

  /** Such an event has the dialog's action carried out when the last inhibitor goes. */
  lemma LapseTable(s: Session, e: Event, env: Env)
    requires Enabled(s, e) && !IsRequest(e) && !Cancels(s, e) && !e.DialogAnsweredEvent?
    ensures var l, lapsed := LastingOf(s), s.inhibitors != map[] && InhibitorsAfter(s, e) == map[];
      && SleepAfter(s, e, env) == (if lapsed then None else l.sleep)
      && s.history.power + (if Performed(s, e, env).Some? then [Performed(s, e, env).value] else [])
         == if lapsed && l.sleep.Some? then Carried(l.power, l.sleep.value, env) else l.power
  {
    assert s.history.power + [] == s.history.power;
  }

  /** An event that takes inhibitors away. */
  lemma RemovalTable(s: Session, e: Event, env: Env, gone: set<nat>)
    requires Enabled(s, e) && !IsRequest(e) && !Cancels(s, e) && !e.DialogAnsweredEvent?
    requires InhibitorsAfter(s, e) == s.inhibitors - gone && NextAfter(s, e) == s.nextInhibitor
    ensures LastingAfter(s, e, env)
         == Without(LastingOf(s), gone, env).(clients := ClientsAfter(s, e),
                                              busDisconnected := s.busDisconnected || e.BusDisconnectedEvent?)
  {
    OtherTable(s, e, env);
    LapseTable(s, e, env);
  }

  /** An event that changes nothing here. */
  lemma StillTable(s: Session, e: Event, env: Env)
    requires Enabled(s, e) && !IsRequest(e) && !Cancels(s, e) && !e.DialogAnsweredEvent?
    requires InhibitorsAfter(s, e) == s.inhibitors && ClientsAfter(s, e) == s.clients && !e.BusDisconnectedEvent?
    requires NextAfter(s, e) == s.nextInhibitor
    ensures LastingAfter(s, e, env) == LastingOf(s)
  {
    GrowthTable(s, e, env);
  }

  /** An event that at most adds inhibitors. */
  lemma GrowthTable(s: Session, e: Event, env: Env)
    requires Enabled(s, e) && !IsRequest(e) && !Cancels(s, e) && !e.DialogAnsweredEvent?
    requires s.inhibitors == map[] || InhibitorsAfter(s, e) != map[]
    requires ClientsAfter(s, e) == s.clients && !e.BusDisconnectedEvent?
    ensures LastingAfter(s, e, env)
         == LastingOf(s).(inhibitors := InhibitorsAfter(s, e), nextInhibitor := NextAfter(s, e))
  {
    assert s.history.power + [] == s.history.power && s.history.cancelled + [] == s.history.cancelled;
  }

  lemma CancelTable(s: Session, e: Event, env: Env)
    requires Inv(s) && Enabled(s, e) && Cancels(s, e)
    ensures LastingAfter(s, e, env) == CancelledBy(LastingOf(s), Reached(s, CancelMessage, env))
  {
    assert Unowned(s.inhibitors) == s.inhibitors - Jit(s.inhibitors);
    assert s.history.power + [] == s.history.power;
  }

  lemma AnswerTable(s: Session, accept: bool, env: Env)
    requires s.dialog.Some? && !Cancels(s, DialogAnsweredEvent(accept))
    ensures LastingAfter(s, DialogAnsweredEvent(accept), env)
         == if accept then Slept(LastingOf(s), env) else LastingOf(s).(sleep := None)
  {
    assert s.history.power + [] == s.history.power && s.history.cancelled + [] == s.history.cancelled;
  }

  // ---------- Replies ----------

  lemma AgreementTable(s: Session, c: Client, ok: bool, last: bool, cookie: nat, env: Env)
    requires s.phase >= QUERY_END_SESSION && (ok || s.logoutMode == Force) && cookie !in Cookies(s.inhibitors)
    ensures LastingAfter(s, ResponseEvent(c, ok, last, false, cookie), env)
         == Without(LastingOf(s), OwnedBy(s.inhibitors, c), env)
  {
    assert NotOf(s.inhibitors, c) == s.inhibitors - OwnedBy(s.inhibitors, c);
    RemovalTable(s, ResponseEvent(c, ok, last, false, cookie), env, OwnedBy(s.inhibitors, c));
  }

  lemma RefusalTable(s: Session, c: Client, last: bool, cookie: nat, env: Env)
    requires s.phase >= QUERY_END_SESSION && s.logoutMode != Force && cookie !in Cookies(s.inhibitors)
    ensures LastingAfter(s, ResponseEvent(c, false, last, false, cookie), env)
         == Added(LastingOf(s), Inhibitor(cookie, Some(c), c.bus, LOGOUT_FLAG))
  {
    assert s.nextInhibitor in InhibitorsAfter(s, ResponseEvent(c, false, last, false, cookie));
    GrowthTable(s, ResponseEvent(c, false, last, false, cookie), env);
  }

  lemma ResponseFollows(s: Session, c: Client, ok: bool, last: bool, cancel: bool, cookie: nat, env: Env)
    requires Inv(s) && Enabled(s, ResponseEvent(c, ok, last, cancel, cookie))
    ensures LastingOf(HandleResponse(s, c, ok, last, cancel, cookie, env))
         == LastingAfter(s, ResponseEvent(c, ok, last, cancel, cookie), env)
  {
    if s.phase < QUERY_END_SESSION {
      StillTable(s, ResponseEvent(c, ok, last, cancel, cookie), env);
    } else if cancel {
      CancelLasts(s, env);
      CancelTable(s, ResponseEvent(c, ok, last, cancel, cookie), env);
    } else {
      ReplyLasts(s, c, ok, last, cookie, env);
      if ok || s.logoutMode == Force {
        AgreementTable(s, c, ok, last, cookie, env);
      } else {
        RefusalTable(s, c, last, cookie, env);
      }
    }
  }

  // ---------- Disconnections ----------

  lemma DisconnectedLasts(s: Session, c: Client, env: Env)
    requires Inv(s)
    ensures LastingOf(ClientDisconnected(s, c, env))
         == Without(LastingOf(s), OwnedBy(s.inhibitors, c), env).(clients := s.clients - {c})
  {
    var s1 := DisconnectClient(s, c, env);
    DisconnectOneLasts(s, c, env);
    DesertedLasts(s1.(clients := s1.clients - {c}), env);
  }

  lemma DisconnectedFollows(s: Session, c: Client, env: Env)
    requires Inv(s) && c in s.clients
    ensures LastingOf(ClientDisconnected(s, c, env)) == LastingAfter(s, DisconnectedEvent(c), env)
  {
    DisconnectedLasts(s, c, env);
    DisconnectedTable(s, c, env);
  }

  lemma DisconnectedTable(s: Session, c: Client, env: Env)
    requires c in s.clients
    ensures LastingAfter(s, DisconnectedEvent(c), env)
         == Without(LastingOf(s), OwnedBy(s.inhibitors, c), env).(clients := s.clients - {c})
  {
    assert NotOf(s.inhibitors, c) == s.inhibitors - OwnedBy(s.inhibitors, c);
    RemovalTable(s, DisconnectedEvent(c), env, OwnedBy(s.inhibitors, c));
  }

  lemma TraversalMembers(order: seq<Client>, cs: set<Client>)
    requires Traversal(order, cs)
    ensures Members(order) == cs
  {
    assert forall c :: c in order <==> c in multiset(order);
  }

  lemma BusDisconnectedLasts(s: Session, order: seq<Client>, env: Env)
    requires Inv(s)
    ensures LastingOf(BusDisconnected(s, order, env)) == Departed(LastingOf(s).(busDisconnected := true), order, env)
  {
    var s1 := s.(busDisconnected := true);
    PhaseProofs.CoreFrame(s, s1);
    assert LastingOf(s1) == LastingOf(s).(busDisconnected := true);
    DisconnectAllLasts(s1, order, env);
    DesertedLasts(DisconnectAll(s1, order, env), env);
  }

  lemma BusDisconnectedTable(s: Session, order: seq<Client>, env: Env)
    requires Traversal(order, OnBus(s.clients, None))
    ensures LastingAfter(s, BusDisconnectedEvent(order), env)
         == Departed(LastingOf(s).(busDisconnected := true), order, env)
  {
    var e, gone := BusDisconnectedEvent(order), OwnedByAny(s.inhibitors, order);
    TraversalMembers(order, OnBus(s.clients, None));
    assert forall c :: c in order <==> c in Members(order);
    assert InhibitorsAfter(s, e) == s.inhibitors - gone;
    assert ClientsAfter(s, e) == s.clients - Members(order);
    RemovalTable(s, e, env, gone);
  }

  lemma BusDisconnectedFollows(s: Session, order: seq<Client>, env: Env)
    requires Inv(s) && Traversal(order, OnBus(s.clients, None))
    ensures LastingOf(BusDisconnected(s, order, env)) == LastingAfter(s, BusDisconnectedEvent(order), env)
  {
    BusDisconnectedLasts(s, order, env);
    BusDisconnectedTable(s, order, env);
  }

  lemma BusRemoveLasts(s: Session, bus: string, env: Env)
    requires Inv(s)
    ensures var s2 := RemoveInhibitors(s.(history := s.history.BusGone(bus)), FromBus(s.inhibitors, bus), env);
      Inv(s2) && LastingOf(s2) == Without(LastingOf(s), FromBus(s.inhibitors, bus), env)
  {
    var s1 := s.(history := s.history.BusGone(bus));
    assert LastingOf(s1) == LastingOf(s);
    EventProofs.BusGoneCovered(s, bus);
    ReplyProofs.RemoveInv(s1, FromBus(s.inhibitors, bus), env);
    RemoveLasts(s1, FromBus(s.inhibitors, bus), env);
  }

  /** The bus name's clients have no inhibitor left that was not taken over that name. */
  lemma BusTookAll(s: Session, bus: string, order: seq<Client>)
    requires StoreSound(s) && bus != "" && Members(order) == OnBus(s.clients, Some(bus))
    ensures OwnedByAny(s.inhibitors - FromBus(s.inhibitors, bus), order) == {}
  {
    assert forall c :: c in order ==> c in Members(order);
  }

  lemma WithoutNothing(l: Lasting, env: Env)
    ensures Without(l, {}, env) == l
  {
    assert l.inhibitors - {} == l.inhibitors;
  }

  lemma BusNameLostLasts(s: Session, bus: string, order: seq<Client>, env: Env)
    requires Inv(s) && bus != "" && Members(order) == OnBus(s.clients, Some(bus))
    ensures LastingOf(BusNameLost(s, bus, order, env))
         == Without(LastingOf(s), FromBus(s.inhibitors, bus), env).(clients := s.clients - Members(order))
  {
    var gone := FromBus(s.inhibitors, bus);
    var s2 := RemoveInhibitors(s.(history := s.history.BusGone(bus)), gone, env);
    BusRemoveLasts(s, bus, env);
    DisconnectAllLasts(s2, order, env);
    DesertedLasts(DisconnectAll(s2, order, env), env);
    BusTookAll(s, bus, order);
    assert s2.inhibitors == LastingOf(s2).inhibitors == s.inhibitors - gone;
    WithoutNothing(LastingOf(s2), env);
  }

  lemma BusNameLostTable(s: Session, bus: string, order: seq<Client>, env: Env)
    requires Enabled(s, BusNameLostEvent(bus, order)) && Members(order) == OnBus(s.clients, Some(bus))
    ensures LastingAfter(s, BusNameLostEvent(bus, order), env)
         == Without(LastingOf(s), FromBus(s.inhibitors, bus), env).(clients := s.clients - Members(order))
  {
    var e, gone := BusNameLostEvent(bus, order), FromBus(s.inhibitors, bus);
    assert InhibitorsAfter(s, e) == s.inhibitors - gone;
    assert ClientsAfter(s, e) == s.clients - Members(order);
    RemovalTable(s, e, env, gone);
  }

  lemma BusNameLostFollows(s: Session, bus: string, order: seq<Client>, env: Env)
    requires Inv(s) && Enabled(s, BusNameLostEvent(bus, order))
    ensures LastingOf(BusNameLost(s, bus, order, env)) == LastingAfter(s, BusNameLostEvent(bus, order), env)
  {
    TraversalMembers(order, OnBus(s.clients, Some(bus)));
    BusNameLostLasts(s, bus, order, env);
    BusNameLostTable(s, bus, order, env);
  }

  // ---------- Inhibitors ----------

  lemma UninhibitLasts(s: Session, i: nat, cookie: nat, env: Env)
    requires Inv(s) && FindByCookie(s.inhibitors, cookie) == Some(i)
    ensures LastingOf(Uninhibit(s, cookie, env)) == Without(LastingOf(s), {i}, env)
  {
    var s1 := s.(history := Waive(s.history, s.inhibitors[i]));
    assert LastingOf(s1) == LastingOf(s);
    RemoveLasts(s1, {i}, env);
    assert Uninhibit(s, cookie, env) == RemoveInhibitors(s1, {i}, env);
  }

  lemma UninhibitTable(s: Session, i: nat, cookie: nat, env: Env)
    requires CookiesDistinct(s.inhibitors) && i in s.inhibitors && s.inhibitors[i].cookie == cookie
    ensures LastingAfter(s, UninhibitEvent(cookie), env) == Without(LastingOf(s), {i}, env)
  {
    assert InhibitorsAfter(s, UninhibitEvent(cookie)) == s.inhibitors - {i};
    RemovalTable(s, UninhibitEvent(cookie), env, {i});
  }

  lemma UninhibitFollows(s: Session, cookie: nat, env: Env)
    requires Inv(s)
    ensures LastingOf(Uninhibit(s, cookie, env)) == LastingAfter(s, UninhibitEvent(cookie), env)
  {
    var found := FindByCookie(s.inhibitors, cookie);
    if found.Some? {
      UninhibitLasts(s, found.value, cookie, env);
      UninhibitTable(s, found.value, cookie, env);
    } else {
      assert Uninhibit(s, cookie, env) == s;
      assert InhibitorsAfter(s, UninhibitEvent(cookie)) == s.inhibitors;
      StillTable(s, UninhibitEvent(cookie), env);
    }
  }

  lemma QueryTimeoutFollows(s: Session, silent: seq<Client>, cookies: seq<nat>, env: Env)
    requires Inv(s) && Enabled(s, QueryTimeoutEvent(silent, cookies))
    ensures LastingOf(QueryTimeout(s, silent, cookies, env)) == LastingAfter(s, QueryTimeoutEvent(silent, cookies), env)
  {
    var e := QueryTimeoutEvent(silent, cookies);
    QueryTimeoutLasts(s, silent, cookies, env);
    if s.logoutMode == Force {
      StillTable(s, e, env);
    } else {
      SilentTable(LastingOf(s), silent, cookies);
      GrowthTable(s, e, env);
    }
  }

  lemma {:induction false} SilentTable(l: Lasting, silent: seq<Client>, cookies: seq<nat>)
    requires |silent| <= |cookies|
    ensures var r := WithSilent(l.inhibitors, l.nextInhibitor, silent, cookies);
      && Blamed(l, silent, cookies) == l.(inhibitors := r, nextInhibitor := l.nextInhibitor + |silent|)
      && (l.inhibitors == map[] || r != map[])
    decreases |silent|
  {
    if silent != [] {
      var l1 := Added(l, Inhibitor(cookies[0], Some(silent[0]), silent[0].bus, LOGOUT_FLAG));
      assert l.nextInhibitor in l1.inhibitors;
      SilentTable(l1, silent[1..], cookies[1..]);
    }
  }

  lemma CancelAnswerLasts(s: Session, env: Env)
    requires Inv(s) && s.dialog.Some? && s.dialog.value.action.EndsSession()
    ensures LastingOf(InhibitDialogResponse(s, false, env))
         == CancelledBy(LastingOf(s), Reached(s, CancelMessage, env))
  {
    var s1 := DialogClosed(s);
    assert LastingOf(s1) == LastingOf(s);
    CancelLasts(s1, env);
    assert InhibitDialogResponse(s, false, env) == CancelEndSession(s1, env);
  }

  lemma DeclineLasts(s: Session, env: Env)
    requires s.dialog.Some? && !s.dialog.value.action.EndsSession()
    ensures LastingOf(InhibitDialogResponse(s, false, env)) == LastingOf(s).(sleep := None)
  {
    assert InhibitDialogResponse(s, false, env) == DialogClosed(s);
  }

  lemma DialogFollows(s: Session, accept: bool, env: Env)
    requires Inv(s) && s.dialog.Some?
    ensures LastingOf(InhibitDialogResponse(s, accept, env)) == LastingAfter(s, DialogAnsweredEvent(accept), env)
  {
    if !accept && s.dialog.value.action.EndsSession() {
      CancelAnswerLasts(s, env);
      CancelTable(s, DialogAnsweredEvent(accept), env);
    } else {
      AnswerTable(s, accept, env);
      if accept {
        AcceptLasts(s, env);
      } else {
        DeclineLasts(s, env);
      }
    }
  }

  lemma InhibitFollows(s: Session, appId: string, reason: string, flags: nat, sender: string, cookie: nat, env: Env)
    requires Inv(s) && Enabled(s, InhibitEvent(appId, reason, flags, sender, cookie))
    ensures LastingOf(Inhibit(s, appId, reason, flags, sender, cookie))
         == LastingAfter(s, InhibitEvent(appId, reason, flags, sender, cookie), env)
  {
    var e := InhibitEvent(appId, reason, flags, sender, cookie);
    if InhibitError(s, appId, reason, flags).Some? {
      StillTable(s, e, env);
    } else {
      AddLasts(s, Inhibitor(cookie, None, Some(sender), flags));
      assert s.nextInhibitor in InhibitorsAfter(s, e);
      GrowthTable(s, e, env);
    }
  }

  // ---------- Requests ----------

  /** What the tables say of a request. */
  lemma RequestTable(s: Session, e: Event, env: Env)
    requires Enabled(s, e) && IsRequest(e)
    ensures var l := LastingAfter(s, e, env);
      l == LastingOf(s).(logoutType := l.logoutType, confirmation := ConfirmationAfter(s, e, env),
                         privileges := PrivilegesAfter(s, e), sleep := l.sleep, power := l.power,
                         requests := RequestsAfter(s, e, env))
      && (!e.ConfirmationEvent? ==> l.sleep == SleepOf(s.dialog) && l.power == s.history.power)
  {
    assert s.history.power + [] == s.history.power && s.history.cancelled + [] == s.history.cancelled;
  }

  lemma LogoutFollows(s: Session, mode: Option<LogoutMode>, env: Env)
    ensures LastingOf(LogoutCall(s, mode, env)) == LastingAfter(s, LogoutEvent(mode), env)
  {
    RequestTable(s, LogoutEvent(mode), env);
    if s.phase != RUNNING || env.lockedDown || mode == None {
      assert LogoutCall(s, mode, env) == s;
    } else if mode.value == Normal && env.logoutPrompt {
      ConfirmationUpLasts(s);
      assert LogoutCall(s, mode, env) == ShowConfirmation(s);
    } else {
      LogoutLasts(s, mode.value, env);
      assert LogoutCall(s, mode, env) == Request(s.(logoutMode := mode.value), Logout, env);
    }
  }

  lemma ConfirmationUpLasts(s: Session)
    requires s.phase == RUNNING
    ensures LastingOf(ShowConfirmation(s)) == LastingOf(s).(confirmation := true)
  {
  }

  lemma LogoutLasts(s: Session, mode: LogoutMode, env: Env)
    requires s.phase == RUNNING
    ensures LastingOf(Request(s.(logoutMode := mode), Logout, env))
         == LastingOf(s).(logoutType := Logout, requests := [Logout])
  {
    var s1 := s.(logoutMode := mode);
    assert LastingOf(s1) == LastingOf(s);
    RequestLasts(s1, Logout, env);
    assert [] + [Logout] == [Logout];
  }

  lemma PowerLastsToo(s: Session, reboot: bool, asked: bool, env: Env)
    ensures LastingOf(RequestPower(s, reboot, asked, env))
         == if asked then LastingOf(s).(privileges := s.privileges + {reboot})
            else
              var t := if reboot then RebootCdm else ShutdownCdm;
              LastingOf(s).(logoutType := t, requests := (if s.phase <= RUNNING then [] else s.history.requests) + [t])
  {
    if !asked {
      RequestLasts(s, if reboot then RebootCdm else ShutdownCdm, env);
    }
  }

  lemma RequestPowerFollows(s: Session, reboot: bool, asked: bool, env: Env)
    ensures LastingOf(RequestPowerCall(s, reboot, asked, env)) == LastingAfter(s, RequestPowerEvent(reboot, asked), env)
  {
    RequestTable(s, RequestPowerEvent(reboot, asked), env);
    PowerLastsToo(s, reboot, asked, env);
  }

  lemma PrivilegesFollow(s: Session, reboot: bool, success: bool, askLater: bool, env: Env)
    requires reboot in s.privileges
    ensures LastingOf(PrivilegesCompleted(s, reboot, success, askLater, env))
         == LastingAfter(s, PrivilegesEvent(reboot, success, askLater), env)
  {
    RequestTable(s, PrivilegesEvent(reboot, success, askLater), env);
    var s1 := s.(privileges := s.privileges - {reboot});
    assert LastingOf(s1) == LastingOf(s).(privileges := s.privileges - {reboot});
    if success {
      GrantLasts(s, reboot, askLater, env);
    } else {
      assert PrivilegesCompleted(s, reboot, success, askLater, env) == s1;
    }
  }

  lemma GrantLasts(s: Session, reboot: bool, askLater: bool, env: Env)
    ensures var t := if askLater then (if reboot then RebootInteract else ShutdownInteract)
                     else if reboot then Reboot else Shutdown;
      LastingOf(PrivilegesCompleted(s, reboot, true, askLater, env))
      == LastingOf(s).(privileges := s.privileges - {reboot}, logoutType := t,
                       requests := (if s.phase <= RUNNING then [] else s.history.requests) + [t])
  {
    var s1 := s.(privileges := s.privileges - {reboot});
    var t := if reboot then (if askLater then RebootInteract else Reboot)
             else (if askLater then ShutdownInteract else Shutdown);
    assert LastingOf(s1) == LastingOf(s).(privileges := s.privileges - {reboot});
    RequestLasts(s1, t, env);
    assert PrivilegesCompleted(s, reboot, true, askLater, env) == Request(s1, t, env);
  }

  lemma ShutdownFollows(s: Session, env: Env)
    ensures LastingOf(ShutdownCall(s, env)) == LastingAfter(s, ShutdownEvent, env)
  {
    RequestTable(s, ShutdownEvent, env);
  }

  lemma ConfirmedLogoutFollows(s: Session, asked: bool, env: Env)
    requires s.confirmation && s.logoutMode == Normal
    ensures LastingOf(ConfirmationAnswered(s, Confirmed(LogoutAction), asked, env))
         == LastingAfter(s, ConfirmationEvent(Confirmed(LogoutAction), asked), env)
  {
    ConfirmationTable(s, Confirmed(LogoutAction), asked, env);
    var s1 := s.(confirmation := false).(logoutMode := NoConfirmation);
    assert LastingOf(s1) == LastingOf(s).(confirmation := false);
    RequestLasts(s1, Logout, env);
    assert ConfirmationAnswered(s, Confirmed(LogoutAction), asked, env) == Request(s1, Logout, env);
  }

  lemma ConfirmedPowerFollows(s: Session, reboot: bool, asked: bool, env: Env)
    requires s.confirmation && s.logoutMode == Normal
    ensures var answer := Confirmed(if reboot then RebootAction else ShutdownAction);
      LastingOf(ConfirmationAnswered(s, answer, asked, env)) == LastingAfter(s, ConfirmationEvent(answer, asked), env)
  {
    var answer, s1 := Confirmed(if reboot then RebootAction else ShutdownAction), s.(confirmation := false);
    ConfirmationTable(s, answer, asked, env);
    assert LastingOf(s1) == LastingOf(s).(confirmation := false);
    PowerLastsToo(s1, reboot, asked, env);
    assert ConfirmationAnswered(s, answer, asked, env) == RequestPower(s1, reboot, asked, env);
  }

  lemma ConfirmationTable(s: Session, answer: Confirmation, asked: bool, env: Env)
    requires s.confirmation && s.logoutMode == Normal && (answer.Confirmed? ==> answer.action.EndsSession())
    ensures var e := ConfirmationEvent(answer, asked);
      LastingAfter(s, e, env)
      == LastingOf(s).(logoutType := TypeAfter(s, e, env), confirmation := false,
                       privileges := PrivilegesAfter(s, e), requests := RequestsAfter(s, e, env))
  {
    RequestTable(s, ConfirmationEvent(answer, asked), env);
    assert s.history.power + [] == s.history.power;
  }

  lemma SuspendLasts(s: Session, action: LogoutAction, env: Env)
    requires !action.EndsSession()
    ensures var l := LastingOf(s);
      LastingOf(RequestSuspend(s, action, env))
      == if Locked(action, env) then l
         else if !Blocked(s, action) then l.(power := l.power + [action])
         else if s.dialog == None then l.(sleep := Some(action))
         else l
  {
    var r := RequestSuspend(s, action, env);
    assert Blocked(s, action) <==> AnyFlag(s.inhibitors, FlagFor(action));
    if Locked(action, env) {
      assert r == s;
    } else if !Blocked(s, action) {
      PowerLasts(s, action, env);
      assert r == PowerAction(s, action, env);
    } else {
      ShowSleepLasts(s, action);
      assert r == ShowInhibitDialog(s, action);
    }
  }

  lemma ShowSleepLasts(s: Session, action: LogoutAction)
    requires !action.EndsSession()
    ensures var l := LastingOf(s);
      LastingOf(ShowInhibitDialog(s, action)) == if s.dialog == None then l.(sleep := Some(action)) else l
  {
  }

  lemma SleepTable(s: Session, action: LogoutAction, asked: bool, env: Env)
    requires s.confirmation && s.logoutMode == Normal && !action.EndsSession()
    ensures var l := LastingOf(s).(confirmation := false);
      LastingAfter(s, ConfirmationEvent(Confirmed(action), asked), env)
      == if Locked(action, env) then l
         else if !Blocked(s, action) then l.(power := l.power + [action])
         else if s.dialog == None then l.(sleep := Some(action))
         else l
  {
    RequestTable(s, ConfirmationEvent(Confirmed(action), asked), env);
    assert s.history.power + [] == s.history.power;
  }

  lemma SleepFollows(s: Session, action: LogoutAction, asked: bool, env: Env)
    requires s.confirmation && s.logoutMode == Normal && !action.EndsSession()
    ensures LastingOf(ConfirmationAnswered(s, Confirmed(action), asked, env))
         == LastingAfter(s, ConfirmationEvent(Confirmed(action), asked), env)
  {
    var s1 := s.(confirmation := false);
    assert LastingOf(s1) == LastingOf(s).(confirmation := false);
    assert Blocked(s1, action) <==> Blocked(s, action);
    SuspendLasts(s1, action, env);
    SleepTable(s, action, asked, env);
    assert ConfirmationAnswered(s, Confirmed(action), asked, env) == RequestSuspend(s1, action, env);
  }

  lemma ConfirmationFollows(s: Session, answer: Confirmation, asked: bool, env: Env)
    requires s.confirmation && s.logoutMode == Normal
    ensures LastingOf(ConfirmationAnswered(s, answer, asked, env))
         == LastingAfter(s, ConfirmationEvent(answer, asked), env)
  {
    match answer
    case Declined => ConfirmationTable(s, answer, asked, env);
    case Confirmed(LogoutAction) => ConfirmedLogoutFollows(s, asked, env);
    case Confirmed(RebootAction) => ConfirmedPowerFollows(s, true, asked, env);
    case Confirmed(ShutdownAction) => ConfirmedPowerFollows(s, false, asked, env);
    case Confirmed(action) => SleepFollows(s, action, asked, env);
  }

  // ---------- The theorem ----------

  lemma RequestFollows(s: Session, e: Event, env: Env)
    requires Enabled(s, e) && IsRequest(e)
    ensures LastingOf(Step(s, e, env)) == LastingAfter(s, e, env)
  {
    match e
    case LogoutEvent(mode) => LogoutFollows(s, mode, env);
    case ShutdownEvent => ShutdownFollows(s, env);
    case RequestPowerEvent(reboot, asked) => RequestPowerFollows(s, reboot, asked, env);
    case PrivilegesEvent(reboot, success, askLater) => PrivilegesFollow(s, reboot, success, askLater, env);
    case ConfirmationEvent(answer, asked) => ConfirmationFollows(s, answer, asked, env);
  }

  /** An app's or a timer's event, and a client that connects. */
  lemma PhaseEventFollows(s: Session, e: Event, env: Env)
    requires Enabled(s, e) && (e.StartEvent? || e.AppSignalEvent? || e.PhaseTimeoutEvent? || e.ConnectedEvent?)
    ensures LastingOf(Step(s, e, env)) == LastingAfter(s, e, env)
  {
    match e
    case StartEvent =>
      StartLasts(s, env);
      StillTable(s, e, env);
    case AppSignalEvent(a) =>
      AppSignalLasts(s, a, env);
      StillTable(s, e, env);
    case PhaseTimeoutEvent =>
      PhaseTimeoutLasts(s, env);
      StillTable(s, e, env);
    case ConnectedEvent(c) =>
      assert s.inhibitors - {} == s.inhibitors;
      RemovalTable(s, e, env, {});
      WithoutNothing(LastingOf(s), env);
  }

  lemma PhaseTimeoutLasts(s: Session, env: Env)
    ensures LastingOf(PhaseTimeout(s, env)) == LastingOf(s)
  {
    var r := TimedOut(s);
    assert r == s.(phaseTimer := false, handlers := r.handlers, history := s.history.(waiting := r.history.waiting));
    EndPhaseLasts(r, PhaseTimedOut, env);
  }

  lemma StartLasts(s: Session, env: Env)
    ensures LastingOf(Start(s, env)) == LastingOf(s)
  {
    var s1 := s.(phase := INITIALIZATION);
    assert LastingOf(s1) == LastingOf(s);
    StartPhaseLasts(s1, env);
  }

  lemma AppSignalLasts(s: Session, a: App, env: Env)
    ensures LastingOf(AppSignal(s, a, env)) == LastingOf(s)
  {
    if a in s.handlers && Signalled(s, a).pendingApps == multiset{} {
      var s1 := Signalled(s, a).(phaseTimer := false);
      assert LastingOf(s1) == LastingOf(s);
      EndPhaseLasts(s1, AppsReady, env);
    }
  }

  /** What clients say, or leave unsaid, and their disconnections. */
  lemma ClientEventFollows(s: Session, e: Event, env: Env)
    requires Inv(s) && Enabled(s, e)
    requires e.QueryTimeoutEvent? || e.ResponseEvent? || e.DisconnectedEvent? || e.BusNameLostEvent?
             || e.BusDisconnectedEvent?
    ensures LastingOf(Step(s, e, env)) == LastingAfter(s, e, env)
  {
    match e
    case QueryTimeoutEvent(silent, cookies) => QueryTimeoutFollows(s, silent, cookies, env);
    case ResponseEvent(c, ok, last, cancel, cookie) => ResponseFollows(s, c, ok, last, cancel, cookie, env);
    case DisconnectedEvent(c) => DisconnectedFollows(s, c, env);
    case BusNameLostEvent(bus, order) => BusNameLostFollows(s, bus, order, env);
    case BusDisconnectedEvent(order) => BusDisconnectedFollows(s, order, env);
  }

  /** Whatever happens, these fields are afterwards what the tables say. */
  lemma StepFollowsTables(s: Session, e: Event, env: Env)
    requires Inv(s) && Enabled(s, e)
    ensures LastingOf(Step(s, e, env)) == LastingAfter(s, e, env)
  {
    match e
    case QueryTimeoutEvent(_, _) => ClientEventFollows(s, e, env);
    case ResponseEvent(_, _, _, _, _) => ClientEventFollows(s, e, env);
    case DisconnectedEvent(_) => ClientEventFollows(s, e, env);
    case BusNameLostEvent(_, _) => ClientEventFollows(s, e, env);
    case BusDisconnectedEvent(_) => ClientEventFollows(s, e, env);
    case InhibitEvent(appId, reason, flags, sender, cookie) =>
      InhibitFollows(s, appId, reason, flags, sender, cookie, env);
    case UninhibitEvent(cookie) => UninhibitFollows(s, cookie, env);
    case DialogAnsweredEvent(accept) => DialogFollows(s, accept, env);
    case _ => if IsRequest(e) { RequestFollows(s, e, env); } else { PhaseEventFollows(s, e, env); }
  }
}
