/**
 The fields that ending and starting phases leave alone, and what each function
 of csm-manager.c that is not about phases does to them.
 */
module LastingFields {
  import opened SessionTypes
  import opened SessionSpec
  import opened SessionInvariant
  import opened EventProofs
  import ReplyProofs

  /** `sleep` is the action that an open dialog not about ending the session asks for. */
  datatype Lasting = Lasting(
    clients: set<Client>,
    inhibitors: map<nat, Inhibitor>,
    nextInhibitor: nat,
    logoutType: LogoutType,
    confirmation: bool,
    privileges: set<bool>,
    busDisconnected: bool,
    apps: map<App, AppInfo>,
    sleep: Option<LogoutAction>,
    power: seq<LogoutAction>,
    cancelled: seq<set<Client>>,
    requests: seq<LogoutType>)

  function SleepOf(dialog: Option<Dialog>): (a: Option<LogoutAction>) {
    if dialog.Some? && !dialog.value.action.EndsSession() then Some(dialog.value.action) else None
  }

  function LastingOf(s: Session): (l: Lasting) {
    Lasting(s.clients, s.inhibitors, s.nextInhibitor, s.logoutType, s.confirmation, s.privileges, s.busDisconnected,
            s.apps, SleepOf(s.dialog), s.history.power, s.history.cancelled, s.history.requests)
  }

  // ---------- Phases ----------

  lemma ClearLasts(s: Session)
    ensures LastingOf(ClearLists(s)) == LastingOf(s) == LastingOf(ClearLists(s).(queryTimer := false))
  {
  }

  lemma QuitLasts(s: Session)
    ensures LastingOf(Quit(ClearLists(s))) == LastingOf(s)
  {
  }

  lemma AdvanceLasts(s: Session, why: Cause, env: Env)
    requires s.phase < EXIT
    ensures LastingOf(Advance(s, why, env)) == LastingOf(s)
  {
  }

  lemma {:induction false} EndPhaseLasts(s: Session, why: Cause, env: Env)
    ensures LastingOf(EndPhase(s, why, env)) == LastingOf(s)
    decreases EXIT - s.phase, 0
  {
    if s.phase == RUNNING && env.lockedDown {
      ClearLasts(s);
    } else if s.phase == EXIT {
      QuitLasts(s);
    } else {
      AdvanceLasts(s, why, env);
      StartPhaseLasts(Advance(s, why, env), env);
    }
  }

  lemma {:induction false} StartPhaseLasts(s: Session, env: Env)
    ensures LastingOf(StartPhase(s, env)) == LastingOf(s)
    decreases EXIT - s.phase, 2
  {
    var s1 := ClearLists(s).(queryTimer := false);
    ClearLasts(s);
    if s.phase <= APPLICATION {
      StartupLasts(s1, env);
    } else if s.phase == RUNNING {
      IdleLasts(s1);
    } else if s.phase == QUERY_END_SESSION {
      QueryLasts(s1, env);
    } else if s.phase == END_SESSION {
      EndSessionLasts(s1, env);
    } else {
      ExitLasts(s1, env);
    }
  }

  lemma IdleLasts(s: Session)
    ensures LastingOf(UpdateIdle(s)) == LastingOf(s)
  {
  }

  lemma QueryLasts(s: Session, env: Env)
    ensures LastingOf(DoPhaseQueryEndSession(s, env)) == LastingOf(s)
  {
  }

  lemma {:induction false} ExitLasts(s: Session, env: Env)
    requires s.phase == EXIT
    ensures LastingOf(DoPhaseExit(s, env)) == LastingOf(s)
    decreases EXIT - s.phase, 1
  {
    var s1 := s.(history := s.history.(stopped := s.history.stopped + [Reached(s, StopMessage, env)]));
    assert LastingOf(s1) == LastingOf(s);
    EndPhaseLasts(s1, Exiting, env);
  }

  lemma {:induction false} StartupLasts(s: Session, env: Env)
    requires s.phase <= APPLICATION
    ensures LastingOf(DoPhaseStartup(s, env)) == LastingOf(s)
    decreases EXIT - s.phase, 1
  {
    var s1 := LaunchApps(s, env);
    assert LastingOf(s1) == LastingOf(s);
    if s1.pendingApps == multiset{} {
      EndPhaseLasts(s1, NothingToStart, env);
    }
  }

  lemma {:induction false} EndSessionLasts(s: Session, env: Env)
    requires s.phase == END_SESSION
    ensures LastingOf(DoPhaseEndSession(s, env)) == LastingOf(s)
    decreases EXIT - s.phase, 1
  {
    var s1 := s.(phaseTimer := false);
    assert LastingOf(s1) == LastingOf(s);
    if s.clients == {} {
      EndPhaseLasts(s1, NoClients, env);
    }
  }

  // ---------- The dialog and the inhibitors ----------

  /** A power action is carried out, except that switching users can be locked down. */
  function Carried(power: seq<LogoutAction>, action: LogoutAction, env: Env): (r: seq<LogoutAction>) {
    if action == SwitchUserAction && env.switchLockedDown then power else power + [action]
  }

  /** A dialog about a power action is accepted; one about the session has no say here. */
  function Slept(l: Lasting, env: Env): (r: Lasting) {
    if l.sleep.Some? then l.(sleep := None, power := Carried(l.power, l.sleep.value, env)) else l
  }

  /** Inhibitors go; a dialog that loses the last of them is accepted. */
  function Without(l: Lasting, gone: set<nat>, env: Env): (r: Lasting) {
    var left := l.(inhibitors := l.inhibitors - gone);
    if l.inhibitors != map[] && left.inhibitors == map[] then Slept(left, env) else left
  }

  lemma WithoutTwice(l: Lasting, g: set<nat>, h: set<nat>, env: Env)
    ensures Without(Without(l, g, env), h, env) == Without(l, g + h, env)
  {
    assert l.inhibitors - g - h == l.inhibitors - (g + h);
    if l.inhibitors - g == map[] {
      assert l.inhibitors - (g + h) == map[];
    }
  }

  lemma AcceptLasts(s: Session, env: Env)
    requires s.dialog.Some?
    ensures LastingOf(InhibitDialogResponse(s, true, env)) == Slept(LastingOf(s), env)
  {
    var s1, action := DialogClosed(s), s.dialog.value.action;
    if action.EndsSession() {
      var s2 := s1.(logoutMode := Force);
      assert LastingOf(s2) == LastingOf(s);
      EndPhaseLasts(s2, DialogAccepted, env);
      assert InhibitDialogResponse(s, true, env) == EndPhase(s2, DialogAccepted, env);
    } else {
      PowerLasts(s1, action, env);
      assert LastingOf(s1) == LastingOf(s).(sleep := None);
      assert InhibitDialogResponse(s, true, env) == PowerAction(s1, action, env);
    }
  }

  lemma PowerLasts(s: Session, action: LogoutAction, env: Env)
    ensures var l := LastingOf(s); LastingOf(PowerAction(s, action, env)) == l.(power := Carried(l.power, action, env))
  {
  }

  lemma RemoveLasts(s: Session, gone: set<nat>, env: Env)
    requires Mirrored(s)
    ensures LastingOf(RemoveInhibitors(s, gone, env)) == Without(LastingOf(s), gone, env)
  {
    NothingLeft(s.inhibitors, gone);
    if s.inhibitors.Keys !! gone {
      assert s.inhibitors - gone == s.inhibitors;
      assert s.inhibitors.Keys - gone == s.inhibitors.Keys;
      assert RemoveInhibitors(s, gone, env) == s;
    } else {
      RemoveSomeLasts(s, gone, env);
    }
  }

  lemma RemoveSomeLasts(s: Session, gone: set<nat>, env: Env)
    requires Mirrored(s) && !(s.inhibitors.Keys !! gone)
    ensures LastingOf(RemoveInhibitors(s, gone, env)) == Without(LastingOf(s), gone, env)
  {
    var s1 := UpdateIdle(s.(inhibitors := s.inhibitors - gone));
    var l1 := LastingOf(s).(inhibitors := s.inhibitors - gone);
    NothingLeft(s.inhibitors, gone);
    assert s.inhibitors.Keys != {};
    assert LastingOf(s1) == l1;
    if s.dialog.Some? {
      var s2 := s1.(dialog := Some(s.dialog.value.(rows := s.dialog.value.rows - gone)));
      assert LastingOf(s2) == l1;
      if s.dialog.value.rows - gone == {} {
        AcceptLasts(s2, env);
        assert RemoveInhibitors(s, gone, env) == InhibitDialogResponse(s2, true, env);
      } else {
        assert RemoveInhibitors(s, gone, env) == s2;
      }
    } else {
      assert RemoveInhibitors(s, gone, env) == s1;
    }
  }

  lemma NothingLeft(inhibitors: map<nat, Inhibitor>, gone: set<nat>)
    ensures inhibitors - gone == map[] <==> inhibitors.Keys - gone == {}
    ensures inhibitors == map[] <==> inhibitors.Keys == {}
  {
    assert (inhibitors - gone).Keys == inhibitors.Keys - gone;
  }

  function Added(l: Lasting, inhibitor: Inhibitor): (r: Lasting) {
    l.(inhibitors := l.inhibitors[l.nextInhibitor := inhibitor], nextInhibitor := l.nextInhibitor + 1)
  }

  lemma AddLasts(s: Session, inhibitor: Inhibitor)
    ensures LastingOf(AddInhibitor(s, inhibitor)) == Added(LastingOf(s), inhibitor)
  {
  }

  function CancelledBy(l: Lasting, told: set<Client>): (r: Lasting) {
    l.(inhibitors := l.inhibitors - Jit(l.inhibitors), logoutType := NoLogout, sleep := None,
       cancelled := l.cancelled + [told])
  }

  lemma CancelLasts(s: Session, env: Env)
    requires s.phase >= QUERY_END_SESSION
    ensures LastingOf(CancelEndSession(s, env)) == CancelledBy(LastingOf(s), Reached(s, CancelMessage, env))
  {
    var s1 := ReplyProofs.Cancelled(s, env);
    assert CancelEndSession(s, env) == StartPhase(s1, env);
    StartPhaseLasts(s1, env);
  }

  lemma ShowLasts(s: Session, action: LogoutAction)
    requires action.EndsSession()
    ensures LastingOf(ShowInhibitDialog(s, action)) == LastingOf(s)
  {
  }

  lemma CompleteLasts(s: Session, env: Env)
    ensures LastingOf(QueryEndSessionComplete(s, env)) == LastingOf(s)
  {
    var s1 := s.(queryTimer := false);
    assert LastingOf(s1) == LastingOf(s);
    if LogoutInhibited(s1) {
      ShowLasts(s1, ActionFor(s1.logoutType));
    } else {
      EndPhaseLasts(s1, QueryComplete, env);
    }
  }

  // ---------- Replies ----------

  /** A refusal leaves an inhibitor in the client's name unless the logout is forced; any other reply takes the
      client's inhibitors away. */
  function Replied(l: Lasting, mode: LogoutMode, c: Client, ok: bool, cookie: nat, env: Env): (r: Lasting) {
    if !ok && mode != Force then Added(l, Inhibitor(cookie, Some(c), c.bus, LOGOUT_FLAG))
    else Without(l, OwnedBy(l.inhibitors, c), env)
  }

  lemma TakeReplyLasts(s: Session, c: Client, ok: bool, last: bool, cookie: nat, env: Env)
    requires Mirrored(s)
    ensures LastingOf(TakeReply(s, c, ok, last, cookie, env))
         == Replied(LastingOf(s), s.logoutMode, c, ok, cookie, env)
  {
    var s1 := s.(queryClients := s.queryClients - multiset{c}, history := s.history.Answered(c, ok, last));
    assert LastingOf(s1) == LastingOf(s);
    if !ok && s.logoutMode != Force {
      assert TakeReply(s, c, ok, last, cookie, env) == AddInhibitor(s1, JitInhibitor(c, cookie));
      AddLasts(s1, JitInhibitor(c, cookie));
    } else {
      assert TakeReply(s, c, ok, last, cookie, env) == RemoveInhibitors(s1, OwnedBy(s1.inhibitors, c), env);
      RemoveLasts(s1, OwnedBy(s1.inhibitors, c), env);
    }
  }

  lemma AllRepliedLasts(s: Session, env: Env)
    requires s.phase == END_SESSION
    ensures LastingOf(AllReplied(s, env)) == LastingOf(s)
  {
    if s.queryClients == multiset{} && !LogoutInhibited(s) && s.nextQueryClients == [] {
      assert AllReplied(s, env) == EndPhase(s, RepliesIn, env);
      EndPhaseLasts(s, RepliesIn, env);
    }
  }

  lemma AfterReplyLasts(s: Session, c: Client, last: bool, env: Env)
    ensures LastingOf(AfterReply(s, c, last, env)) == LastingOf(s)
  {
    if s.phase == QUERY_END_SESSION {
      CompleteLasts(s, env);
    } else if s.phase == END_SESSION {
      var s1 := if last then s.(nextQueryClients := [c] + s.nextQueryClients) else s;
      assert LastingOf(s1) == LastingOf(s);
      assert AfterReply(s, c, last, env) == AllReplied(s1, env);
      AllRepliedLasts(s1, env);
    }
  }

  lemma ReplyLasts(s: Session, c: Client, ok: bool, last: bool, cookie: nat, env: Env)
    requires Mirrored(s) && s.phase >= QUERY_END_SESSION
    ensures LastingOf(HandleResponse(s, c, ok, last, false, cookie, env))
         == Replied(LastingOf(s), s.logoutMode, c, ok, cookie, env)
  {
    var s1 := TakeReply(s, c, ok, last, cookie, env);
    TakeReplyLasts(s, c, ok, last, cookie, env);
    assert HandleResponse(s, c, ok, last, false, cookie, env) == AfterReply(s1, c, last, env);
    AfterReplyLasts(s1, c, last, env);
  }

  // ---------- Disconnections ----------

  lemma DisconnectLasts(s: Session, c: Client, env: Env)
    requires Inv(s)
    ensures LastingOf(DisconnectClient(s, c, env)) == Without(LastingOf(s), OwnedBy(s.inhibitors, c), env)
  {
    var s0, gone := s.(history := s.history.Rule(c, Gone)), OwnedBy(s.inhibitors, c);
    var s1 := RemoveInhibitors(s0, gone, env);
    DisconnectFirstLasts(s, c, env);
    if s1.phase == QUERY_END_SESSION {
      ReplyLasts(s1, c, true, false, 0, env);
      WithoutAgain(LastingOf(s), c, env);
      assert DisconnectClient(s, c, env) == HandleResponse(s1, c, true, false, false, 0, env);
    } else {
      assert DisconnectClient(s, c, env) == s1;
    }
  }

  lemma DisconnectFirstLasts(s: Session, c: Client, env: Env)
    requires Inv(s)
    ensures var s1 := RemoveInhibitors(s.(history := s.history.Rule(c, Gone)), OwnedBy(s.inhibitors, c), env);
      Mirrored(s1) && LastingOf(s1) == Without(LastingOf(s), OwnedBy(s.inhibitors, c), env)
  {
    var s0, gone := s.(history := s.history.Rule(c, Gone)), OwnedBy(s.inhibitors, c);
    assert LastingOf(s0) == LastingOf(s);
    GoneCovered(s, c);
    RemoveLasts(s0, gone, env);
    ReplyProofs.RemoveInv(s0, gone, env);
  }

  lemma WithoutAgain(l: Lasting, c: Client, env: Env)
    ensures var r := Without(l, OwnedBy(l.inhibitors, c), env); Without(r, OwnedBy(r.inhibitors, c), env) == r
  {
    var gone := OwnedBy(l.inhibitors, c);
    var r := Without(l, gone, env);
    assert r.inhibitors == l.inhibitors - gone;
    NoMoreOwned(l.inhibitors, c);
    WithoutTwice(l, gone, {}, env);
    assert gone + {} == gone;
  }

  lemma NoMoreOwned(inhibitors: map<nat, Inhibitor>, c: Client)
    ensures OwnedBy(inhibitors - OwnedBy(inhibitors, c), c) == {}
  {
  }

  lemma DesertedLasts(s: Session, env: Env)
    ensures LastingOf(ExitIfDeserted(s, env)) == LastingOf(s)
  {
    if s.phase >= QUERY_END_SESSION && s.clients == {} {
      EndPhaseLasts(s, LastClientLeft, env);
    }
  }

  function OwnedByAny(inhibitors: map<nat, Inhibitor>, order: seq<Client>): (r: set<nat>) {
    set i | i in inhibitors && inhibitors[i].owner.Some? && inhibitors[i].owner.value in order
  }

  function Members(order: seq<Client>): (r: set<Client>) {
    set c | c in order
  }

  /** The clients of `order` leave, and their inhibitors with them. */
  function Departed(l: Lasting, order: seq<Client>, env: Env): (r: Lasting) {
    Without(l, OwnedByAny(l.inhibitors, order), env).(clients := l.clients - Members(order))
  }

  lemma DepartedNext(l: Lasting, order: seq<Client>, env: Env)
    requires order != []
    ensures var c := order[0];
      Departed(Without(l, OwnedBy(l.inhibitors, c), env).(clients := l.clients - {c}), order[1..], env)
      == Departed(l, order, env)
  {
    var c, rest := order[0], order[1..];
    MembersNext(l.clients, order);
    var g := OwnedBy(l.inhibitors, c);
    var h := OwnedByAny(l.inhibitors - g, rest);
    OwnedNext(l.inhibitors, order);
    WithoutTwice(l, g, h, env);
    WithoutFrame(Without(l, g, env), l.clients - {c}, h, env);
  }

  lemma MembersNext(clients: set<Client>, order: seq<Client>)
    requires order != []
    ensures clients - {order[0]} - Members(order[1..]) == clients - Members(order)
  {
    assert forall d :: d in order <==> d == order[0] || d in order[1..];
  }

  lemma OwnedNext(inhibitors: map<nat, Inhibitor>, order: seq<Client>)
    requires order != []
    ensures var g := OwnedBy(inhibitors, order[0]);
      g + OwnedByAny(inhibitors - g, order[1..]) == OwnedByAny(inhibitors, order)
  {
    assert forall d :: d in order <==> d == order[0] || d in order[1..];
  }

  lemma WithoutFrame(l: Lasting, clients: set<Client>, gone: set<nat>, env: Env)
    ensures Without(l.(clients := clients), gone, env) == Without(l, gone, env).(clients := clients)
  {
  }

  lemma {:induction false} DisconnectAllLasts(s: Session, order: seq<Client>, env: Env)
    requires Inv(s)
    ensures LastingOf(DisconnectAll(s, order, env)) == Departed(LastingOf(s), order, env)
    decreases |order|
  {
    if order == [] {
      assert OwnedByAny(s.inhibitors, order) == {};
      assert s.inhibitors - {} == s.inhibitors && s.clients - {} == s.clients;
    } else {
      var s1 := DisconnectClient(s, order[0], env);
      DisconnectOneLasts(s, order[0], env);
      DisconnectAllLasts(s1.(clients := s1.clients - {order[0]}), order[1..], env);
      DepartedNext(LastingOf(s), order, env);
    }
  }

  lemma DisconnectOneLasts(s: Session, c: Client, env: Env)
    requires Inv(s)
    ensures var s1 := DisconnectClient(s, c, env);
      var s2 := s1.(clients := s1.clients - {c});
      Inv(s2)
      && LastingOf(s2) == Without(LastingOf(s), OwnedBy(s.inhibitors, c), env).(clients := s.clients - {c})
  {
    var s1 := DisconnectClient(s, c, env);
    DisconnectLasts(s, c, env);
    DisconnectInv(s, c, env);
    ClientsFrame(s1, s1.clients - {c});
    assert LastingOf(s1).clients == s.clients;
  }

  // ---------- The query's timeout ----------

  function Blamed(l: Lasting, silent: seq<Client>, cookies: seq<nat>): (r: Lasting)
    requires |silent| <= |cookies|
    decreases |silent|
  {
    if silent == [] then l
    else Blamed(Added(l, Inhibitor(cookies[0], Some(silent[0]), silent[0].bus, LOGOUT_FLAG)), silent[1..], cookies[1..])
  }

  lemma {:induction false} SilentLasts(s: Session, silent: seq<Client>, cookies: seq<nat>)
    requires |silent| <= |cookies|
    ensures LastingOf(InhibitForSilent(s, silent, cookies)) == Blamed(LastingOf(s), silent, cookies)
    decreases |silent|
  {
    if silent != [] {
      AddLasts(s, JitInhibitor(silent[0], cookies[0]));
      SilentLasts(AddInhibitor(s, JitInhibitor(silent[0], cookies[0])), silent[1..], cookies[1..]);
    }
  }

  lemma QueryTimeoutLasts(s: Session, silent: seq<Client>, cookies: seq<nat>, env: Env)
    requires |silent| <= |cookies|
    ensures LastingOf(QueryTimeout(s, silent, cookies, env))
         == if s.logoutMode == Force then LastingOf(s) else Blamed(LastingOf(s), silent, cookies)
  {
    var s1, s2 := s.(queryTimer := false), SilentGivenUp(s, silent, cookies);
    assert LastingOf(s1) == LastingOf(s);
    if s.logoutMode != Force {
      SilentLasts(s1, silent, cookies);
      assert LastingOf(s2) == LastingOf(InhibitForSilent(s1, silent, cookies));
    }
    CompleteLasts(s2, env);
  }

  /** The `k`th silent client's inhibitor is the `k`th new one, and the old ones stay. */
  lemma {:induction false} BlamedEach(l: Lasting, silent: seq<Client>, cookies: seq<nat>, i: nat)
    requires |silent| <= |cookies|
    ensures var r, k := Blamed(l, silent, cookies), i - l.nextInhibitor;
      && r.nextInhibitor == l.nextInhibitor + |silent|
      && r == l.(inhibitors := r.inhibitors, nextInhibitor := r.nextInhibitor)
      && (i in r.inhibitors <==> i in l.inhibitors || 0 <= k < |silent|)
      && (0 <= k < |silent| ==> r.inhibitors[i] == Inhibitor(cookies[k], Some(silent[k]), silent[k].bus, LOGOUT_FLAG))
      && (i in l.inhibitors && !(0 <= k < |silent|) ==> r.inhibitors[i] == l.inhibitors[i])
    decreases |silent|
  {
    if silent != [] {
      var l1 := Added(l, Inhibitor(cookies[0], Some(silent[0]), silent[0].bus, LOGOUT_FLAG));
      BlamedEach(l1, silent[1..], cookies[1..], i);
    }
  }

  // ---------- Requests ----------

  lemma RequestLasts(s: Session, t: LogoutType, env: Env)
    ensures LastingOf(Request(s, t, env))
         == LastingOf(s).(logoutType := t, requests := (if s.phase <= RUNNING then [] else s.history.requests) + [t])
  {
    EndPhaseLasts(Requesting(s, t), Requested, env);
  }
}
