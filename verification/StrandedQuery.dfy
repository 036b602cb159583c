/**
 A query that nothing will end: its timer is gone and no dialog is up. Which
 steps leave a session in one, exactly, and two runs that do.
 */
module StrandedQuery {
  import opened SessionTypes
  import opened SessionSpec
  import opened SessionInvariant
  import PhaseProofs
  import ReplyProofs
  import opened EventProofs
  import ForwardProofs
  import opened SessionRuns
  import opened SessionTheorems
  import LogoutRounds
  import opened ReplyEffects

  ghost predicate Stranded(s: Session) {
    s.phase == QUERY_END_SESSION && !s.queryTimer && s.dialog.None?
  }

  /** The query's timer is gone, and the dialog that is up is not about the logout. */
  ghost predicate Brink(s: Session) {
    && s.phase == QUERY_END_SESSION && !s.queryTimer
    && s.dialog.Some? && !s.dialog.value.action.EndsSession()
  }

  /** The events that make the dialog go without a client's reply being handled after it: its answer, and
      the end of the last inhibitor, unless a client leaves by the same event or none is left. */
  ghost predicate DropsDialog(s: Session, e: Event) {
    match e
    case DialogAnsweredEvent(_) => true
    case UninhibitEvent(cookie) => Cookies(s.inhibitors) == {cookie}
    case BusNameLostEvent(bus, _) =>
      && (forall i :: i in s.inhibitors ==> s.inhibitors[i].bus == Some(bus))
      && OnBus(s.clients, Some(bus)) == {} && s.clients != {}
    case _ => false
  }

  // ---------- What leads there ----------

  /** Accepting a dialog: one about the logout ends the query, another leaves everything else as it was. */
  lemma AcceptStrands(s: Session, env: Env)
    requires s.phase == QUERY_END_SESSION && s.dialog.Some?
    ensures var r := InhibitDialogResponse(s, true, env);
      if s.dialog.value.action.EndsSession() then r.phase > QUERY_END_SESSION
      else SameLists(s, r) && r.dialog.None? && r.clients == s.clients
  {
    AcceptKeepsLists(s, env);
    var s1, action := DialogClosed(s), s.dialog.value.action;
    if action.EndsSession() {
      assert InhibitDialogResponse(s, true, env) == EndPhase(s1.(logoutMode := Force), DialogAccepted, env);
      ForwardProofs.EndPhaseOnward(s1.(logoutMode := Force), DialogAccepted, env);
    } else {
      assert InhibitDialogResponse(s, true, env) == PowerAction(s1, action, env);
    }
  }

  lemma RemoveStrands(s: Session, gone: set<nat>, env: Env)
    requires s.phase == QUERY_END_SESSION && Mirrored(s)
    ensures var r := RemoveInhibitors(s, gone, env);
      && r.phase >= QUERY_END_SESSION
      && (Stranded(r) <==> Stranded(s) || (Brink(s) && s.inhibitors.Keys <= gone))
      && (Stranded(r) ==> r.clients == s.clients)
  {
    RemoveKeepsLists(s, gone, env);
    var r, s1 := RemoveInhibitors(s, gone, env), UpdateIdle(s.(inhibitors := s.inhibitors - gone));
    if s.inhibitors.Keys !! gone {
      assert r == s;
      if k :| k in s.inhibitors.Keys {
        assert k !in gone;
      }
    } else if s.dialog.None? {
      assert r == s1;
    } else {
      var s2 := s1.(dialog := Some(s.dialog.value.(rows := s.dialog.value.rows - gone)));
      assert s.inhibitors.Keys <= gone <==> s.dialog.value.rows - gone == {} by {
        assert forall k :: k in s.inhibitors.Keys <==> k in s.dialog.value.rows;
        assert forall k :: k in s.dialog.value.rows && k !in gone ==> k in s.dialog.value.rows - gone;
      }
      if s.dialog.value.rows - gone == {} {
        assert r == InhibitDialogResponse(s2, true, env);
        AcceptStrands(s2, env);
      } else {
        assert r == s2;
      }
    }
  }

  /** Handling a reply, even a late one, always leaves the query with a timer or a dialog, or over. */
  lemma ResponseRescues(s: Session, c: Client, ok: bool, last: bool, cancel: bool, cookie: nat, env: Env)
    requires s.phase == QUERY_END_SESSION && (s.queryTimer || s.queryClients == multiset{})
    ensures !Stranded(HandleResponse(s, c, ok, last, cancel, cookie, env))
  {
    if cancel {
      CancelRestores(s, env);
    } else {
      ReplyMovesQueryOn(s, c, ok, last, cookie, env);
    }
  }

  /** So does the disconnection of a client during a logout. */
  lemma DisconnectRescues(s: Session, c: Client, env: Env)
    requires Inv(s) && s.phase >= QUERY_END_SESSION
    ensures !Stranded(DisconnectClient(s, c, env)) && DisconnectClient(s, c, env).phase >= QUERY_END_SESSION
  {
    GoneCovered(s, c);
    var s0 := s.(history := s.history.Rule(c, Gone));
    ReplyProofs.RemoveInv(s0, OwnedBy(s.inhibitors, c), env);
    var s1 := RemoveInhibitors(s0, OwnedBy(s.inhibitors, c), env);
    ForwardProofs.DisconnectOnward(s, c, env);
    if s1.phase == QUERY_END_SESSION {
      ResponseRescues(s1, c, true, false, false, 0, env);
    }
  }

  lemma {:induction false} DisconnectAllRescues(s: Session, order: seq<Client>, env: Env)
    requires Inv(s) && s.phase >= QUERY_END_SESSION && order != []
    ensures !Stranded(DisconnectAll(s, order, env))
    decreases |order|
  {
    var s1 := DisconnectClient(s, order[0], env);
    var s2 := s1.(clients := s1.clients - {order[0]});
    DisconnectRescues(s, order[0], env);
    if order[1..] == [] {
      assert DisconnectAll(s, order, env) == s2;
    } else {
      DisconnectInv(s, order[0], env);
      ClientsFrame(s1, s2.clients);
      DisconnectAllRescues(s2, order[1..], env);
    }
  }

  lemma DesertedRescues(s: Session, env: Env)
    ensures Stranded(ExitIfDeserted(s, env)) <==> Stranded(s) && s.clients != {}
  {
    if s.phase >= QUERY_END_SESSION && s.clients == {} {
      assert ExitIfDeserted(s, env) == EndPhase(s, LastClientLeft, env);
      ForwardProofs.EndPhaseOnward(s, LastClientLeft, env);
    }
  }

  // ---------- Exactly which steps ----------

  lemma BusNameLostStrands(s: Session, bus: string, order: seq<Client>, env: Env)
    requires Inv(s) && s.phase == QUERY_END_SESSION && !Stranded(s)
    requires Enabled(s, BusNameLostEvent(bus, order))
    ensures Stranded(BusNameLost(s, bus, order, env)) <==> Brink(s) && DropsDialog(s, BusNameLostEvent(bus, order))
  {
    var s1 := s.(history := s.history.BusGone(bus));
    var gone := FromBus(s1.inhibitors, bus);
    var s2 := RemoveInhibitors(s1, gone, env);
    RemoveStrands(s1, gone, env);
    AllFromBus(s.inhibitors, bus);
    DesertedRescues(DisconnectAll(s2, order, env), env);
    EmptyTraversal(order, OnBus(s.clients, Some(bus)));
    if order == [] {
      assert DisconnectAll(s2, order, env) == s2;
    } else {
      BusGoneCovered(s, bus);
      ReplyProofs.RemoveInv(s1, gone, env);
      DisconnectAllRescues(s2, order, env);
    }
  }

  lemma AllFromBus(inhibitors: map<nat, Inhibitor>, bus: string)
    ensures inhibitors.Keys <= FromBus(inhibitors, bus)
       <==> forall i :: i in inhibitors ==> inhibitors[i].bus == Some(bus)
  {
    if inhibitors.Keys <= FromBus(inhibitors, bus) {
      assert forall i :: i in inhibitors ==> i in inhibitors.Keys;
    }
  }

  lemma EmptyTraversal(order: seq<Client>, clients: set<Client>)
    requires Traversal(order, clients)
    ensures order == [] <==> clients == {}
  {
    assert |multiset(order)| == |order| && |multiset(clients)| == |clients|;
  }

  lemma BusDisconnectedStrands(s: Session, order: seq<Client>, env: Env)
    requires Inv(s) && s.phase == QUERY_END_SESSION && !Stranded(s)
    ensures !Stranded(BusDisconnected(s, order, env))
  {
    var s1 := s.(busDisconnected := true);
    DesertedRescues(DisconnectAll(s1, order, env), env);
    if order != [] {
      PhaseProofs.CoreFrame(s, s1);
      DisconnectAllRescues(s1, order, env);
    }
  }

  lemma ClientDisconnectedStrands(s: Session, c: Client, env: Env)
    requires Inv(s) && s.phase == QUERY_END_SESSION
    ensures !Stranded(ClientDisconnected(s, c, env))
  {
    var s1 := DisconnectClient(s, c, env);
    DisconnectRescues(s, c, env);
    DesertedRescues(s1.(clients := s1.clients - {c}), env);
  }

  lemma UninhibitStrands(s: Session, cookie: nat, env: Env)
    requires Inv(s) && s.phase == QUERY_END_SESSION && !Stranded(s)
    ensures Stranded(Uninhibit(s, cookie, env)) <==> Brink(s) && Cookies(s.inhibitors) == {cookie}
  {
    OnlyCookie(s.inhibitors, cookie);
    match FindByCookie(s.inhibitors, cookie)
    case None =>
    case Some(i) => RemoveStrands(s.(history := Waive(s.history, s.inhibitors[i])), {i}, env);
  }

  lemma OnlyCookie(inhibitors: map<nat, Inhibitor>, cookie: nat)
    requires CookiesDistinct(inhibitors)
    ensures var found := FindByCookie(inhibitors, cookie);
      Cookies(inhibitors) == {cookie} <==> found.Some? && inhibitors.Keys <= {found.value}
  {
    var found := FindByCookie(inhibitors, cookie);
    if Cookies(inhibitors) == {cookie} {
      assert cookie in Cookies(inhibitors);
      forall i | i in inhibitors
        ensures inhibitors[i].cookie == cookie
      {
        assert inhibitors[i].cookie in Cookies(inhibitors);
      }
    }
    assert found.Some? ==> cookie in Cookies(inhibitors);
    assert forall i :: i in inhibitors ==> i in inhibitors.Keys;
  }

  lemma DialogAnsweredStrands(s: Session, accept: bool, env: Env)
    requires s.phase == QUERY_END_SESSION && s.dialog.Some?
    ensures Stranded(InhibitDialogResponse(s, accept, env)) <==> Brink(s)
  {
    if accept {
      AcceptStrands(s, env);
    } else if s.dialog.value.action.EndsSession() {
      assert InhibitDialogResponse(s, false, env) == CancelEndSession(DialogClosed(s), env);
      CancelRestores(DialogClosed(s), env);
    }
  }

  lemma QueryTimeoutStrands(s: Session, silent: seq<Client>, cookies: seq<nat>, env: Env)
    requires s.phase == QUERY_END_SESSION && |silent| <= |cookies|
    ensures !Stranded(QueryTimeout(s, silent, cookies, env))
  {
    var s1 := SilentGivenUp(s, silent, cookies);
    ForwardProofs.SilentForward(s.(queryTimer := false), silent, cookies, env);
    assert s1.phase >= QUERY_END_SESSION;
    CompleteRescues(s1, env);
  }

  lemma CompleteRescues(s: Session, env: Env)
    requires s.phase >= QUERY_END_SESSION
    ensures !Stranded(QueryEndSessionComplete(s, env))
  {
    var s1 := s.(queryTimer := false);
    if LogoutInhibited(s1) {
      assert QueryEndSessionComplete(s, env) == ShowInhibitDialog(s1, ActionFor(s1.logoutType));
    } else {
      assert QueryEndSessionComplete(s, env) == EndPhase(s1, QueryComplete, env);
      ForwardProofs.EndPhaseOnward(s1, QueryComplete, env);
    }
  }

  /** What an event of the query phase itself, other than a request, does. */
  lemma QueryStrandsIff(s: Session, e: Event, env: Env)
    requires Inv(s) && Enabled(s, e) && s.phase == QUERY_END_SESSION && !Stranded(s) && !IsRequest(e)
    ensures Stranded(Step(s, e, env)) <==> Brink(s) && DropsDialog(s, e)
  {
    var r := Step(s, e, env);
    match e
    case AppSignalEvent(a) => assert r == s.(history := s.history.(waiting := s.history.waiting - {a}));
    case QueryTimeoutEvent(silent, cookies) =>
      QueryTimeoutStrands(s, silent, cookies, env);
      assert r == QueryTimeout(s, silent, cookies, env);
    case InhibitEvent(appId, reason, flags, sender, cookie) => InhibitKeeps(s, appId, reason, flags, sender, cookie);
    case UninhibitEvent(_) => DropEventStrandsIff(s, e, env);
    case DialogAnsweredEvent(_) => DropEventStrandsIff(s, e, env);
    case _ => ClientEventStrandsIff(s, e, env);
  }

  lemma DropEventStrandsIff(s: Session, e: Event, env: Env)
    requires Inv(s) && Enabled(s, e) && s.phase == QUERY_END_SESSION && !Stranded(s)
    requires e.UninhibitEvent? || e.DialogAnsweredEvent?
    ensures Stranded(Step(s, e, env)) <==> Brink(s) && DropsDialog(s, e)
  {
    var r := Step(s, e, env);
    match e
    case UninhibitEvent(cookie) =>
      UninhibitStrands(s, cookie, env);
      assert r == Uninhibit(s, cookie, env);
    case DialogAnsweredEvent(accept) =>
      DialogAnsweredStrands(s, accept, env);
      assert r == InhibitDialogResponse(s, accept, env);
  }

  /** What the clients, and the bus on their behalf, tell the manager. */
  ghost predicate FromClients(e: Event) {
    e.ResponseEvent? || e.ConnectedEvent? || e.DisconnectedEvent? || e.BusNameLostEvent? || e.BusDisconnectedEvent?
  }

  lemma ClientEventStrandsIff(s: Session, e: Event, env: Env)
    requires Inv(s) && Enabled(s, e) && s.phase == QUERY_END_SESSION && !Stranded(s) && FromClients(e)
    ensures Stranded(Step(s, e, env)) <==> Brink(s) && DropsDialog(s, e)
  {
    var r := Step(s, e, env);
    match e
    case ResponseEvent(c, ok, last, cancel, cookie) =>
      ResponseRescues(s, c, ok, last, cancel, cookie, env);
      assert r == HandleResponse(s, c, ok, last, cancel, cookie, env);
    case ConnectedEvent(c) => assert r == s.(clients := s.clients + {c});
    case DisconnectedEvent(c) =>
      ClientDisconnectedStrands(s, c, env);
      assert r == ClientDisconnected(s, c, env);
    case BusNameLostEvent(bus, order) =>
      BusNameLostStrands(s, bus, order, env);
      assert r == BusNameLost(s, bus, order, env);
    case BusDisconnectedEvent(order) =>
      BusDisconnectedStrands(s, order, env);
      assert r == BusDisconnected(s, order, env);
  }

  lemma InhibitKeeps(s: Session, appId: string, reason: string, flags: nat, sender: string, cookie: nat)
    ensures var r := Inhibit(s, appId, reason, flags, sender, cookie);
      r.phase == s.phase && r.queryTimer == s.queryTimer && (r.dialog.Some? <==> s.dialog.Some?)
  {
  }

  /** For every reachable state in which the query, if there is one, has its timer or a dialog, and for every
      event: the step leaves it with neither exactly when the timer was gone already, the dialog was not about
      the logout, and the event makes the dialog go. */
  lemma StrandsIff(s: Session, e: Event, env: Env)
    requires Reachable(s) && Enabled(s, e) && !Stranded(s)
    ensures Stranded(Step(s, e, env)) <==> Brink(s) && DropsDialog(s, e)
  {
    ReachableInv(s);
    if s.phase > QUERY_END_SESSION {
      PhasesRiseOrCancel(s, e, env);
    } else if s.phase < QUERY_END_SESSION {
      EarlierNeverStrands(s, e, env);
    } else if !IsRequest(e) {
      QueryStrandsIff(s, e, env);
    } else if Overtakes(e) {
      OvertakingEndsQuery(s, e, env);
    } else {
      OtherRequestsStay(s, e, env);
    }
  }

  lemma EarlierNeverStrands(s: Session, e: Event, env: Env)
    requires Reachable(s) && Enabled(s, e) && s.phase < QUERY_END_SESSION
    ensures !Stranded(Step(s, e, env))
  {
    var r := Step(s, e, env);
    if !IsRequest(e) {
      LogoutRounds.OnlyRequestsLeaveRunning(s, e, env);
    } else if s.phase < RUNNING {
      ReachableInv(s);
      EarlierRequestFails(s, e, env);
    } else if r.phase != RUNNING {
      LogoutRounds.LogoutAsksEveryClient(s, e, env);
    }
  }

  lemma EarlierRequestFails(s: Session, e: Event, env: Env)
    requires Inv(s) && Enabled(s, e) && s.phase < RUNNING && IsRequest(e)
    ensures Step(s, e, env) == s
  {
  }

  // ---------- Over a whole run ----------

  /** The step from `s` to `r` is one of those that strand a query. */
  ghost predicate Strands(s: Session, r: Session) {
    Brink(s) && exists e, env :: Enabled(s, e) && r == Step(s, e, env) && DropsDialog(s, e)
  }

  lemma FollowsStrands(s: Session, r: Session)
    requires Reachable(s) && Follows(s, r) && Stranded(r) && !Stranded(s)
    ensures Strands(s, r)
  {
    var e, env :| Enabled(s, e) && r == Step(s, e, env);
    StrandsIff(s, e, env);
  }

  lemma PrefixReachable(run: seq<Session>, k: nat)
    requires IsRun(run) && k < |run|
    ensures Reachable(run[k])
  {
    var part := run[..k + 1];
    forall i: nat | i + 1 < |part|
      ensures FollowsAt(part, i)
    {
      assert FollowsAt(run, i);
    }
    assert IsRun(part) && Ends(part, run[k]);
  }

  /** The last of the first `k` states that was not stranded. */
  lemma {:induction false} LastSound(run: seq<Session>, k: nat) returns (j: nat)
    requires k < |run| && Stranded(run[k]) && !Stranded(run[0])
    ensures j < k && !Stranded(run[j])
    ensures forall i :: j < i <= k ==> Stranded(run[i])
  {
    if Stranded(run[k - 1]) {
      j := LastSound(run, k - 1);
    } else {
      j := k - 1;
    }
  }

  lemma NotAtFirst(run: seq<Session>)
    requires IsRun(run)
    ensures !Stranded(run[0])
  {
    var apps :| run[0] == Created(apps);
  }

  lemma StrandsAt(run: seq<Session>, k: nat)
    requires IsRun(run) && k + 1 < |run| && Stranded(run[k + 1]) && !Stranded(run[k])
    ensures Strands(run[k], run[k + 1])
  {
    PrefixReachable(run, k);
    assert FollowsAt(run, k);
    FollowsStrands(run[k], run[k + 1]);
  }

  /** In every run, whenever the query is without timer and dialog, it has been so ever since one such step. */
  lemma StrandedSince(run: seq<Session>, k: nat) returns (j: nat)
    requires IsRun(run) && k < |run| && Stranded(run[k])
    ensures j < k && Strands(run[j], run[j + 1])
    ensures forall i :: j < i <= k ==> Stranded(run[i])
  {
    NotAtFirst(run);
    j := LastSound(run, k);
    StrandsAt(run, j);
  }

  // ---------- Two runs that strand a query ----------

  /** A suspend dialog raised while running is reused by the logout that follows. Once the query timer has run
      out, answering the dialog strands the query although an application inhibits; withdrawing that
      inhibitor strands it although nothing inhibits any more. */
  lemma QueriesAreStranded(env: Env)
    requires !env.lockedDown
    ensures exists s :: Reachable(s) && Stranded(s) && LogoutInhibited(s)
    ensures exists s :: Reachable(s) && Stranded(s) && s.inhibitors == map[]
  {
    var s := BrinkSession(env);
    ReachableStep(s, DialogAnsweredEvent(false), env);
    SleepDialogAnswered(s, env);
    assert Cookies(s.inhibitors) == {7} by {
      assert s.inhibitors[1].cookie in Cookies(s.inhibitors);
    }
    ReachableStep(s, UninhibitEvent(7), env);
    StrandsIff(s, UninhibitEvent(7), env);
    ReachableInv(s);
    UninhibitRemovesTheOne(s, 1, env);
    assert Step(s, UninhibitEvent(7), env) == Uninhibit(s, s.inhibitors[1].cookie, env);
    assert s.inhibitors - {1} == map[];
  }

  const BLOCKER := Inhibitor(7, None, Some(":1"), LOGOUT_FLAG + SUSPEND_FLAG)

  /** On the brink, with one application inhibiting logout and suspend. */
  lemma BrinkSession(env: Env) returns (s: Session)
    requires !env.lockedDown
    ensures Reachable(s) && Brink(s) && s.inhibitors == map[1 := BLOCKER]
  {
    var s1 := SleepSession(env);
    LogoutBegins(s1, env);
    ReachableStep(s1, LogoutEvent(Some(NoConfirmation)), env);
    var s2 := Step(s1, LogoutEvent(Some(NoConfirmation)), env);
    SleepDialogReused(s2, env);
    ReachableStep(s2, QueryTimeoutEvent([], []), env);
    s := Step(s2, QueryTimeoutEvent([], []), env);
  }

  /** The dialog about sleeping is up. */
  lemma SleepSession(env: Env) returns (s: Session)
    requires !env.lockedDown
    ensures Reachable(s) && s.phase == RUNNING && s.clients == {} && s.logoutMode == Normal
    ensures s.dialog == Some(Dialog(SleepAction, s.inhibitors.Keys)) && s.inhibitors == map[1 := BLOCKER]
  {
    var s1 := InhibitedSession(env);
    ReachableStep(s1, ShutdownEvent, env);
    var s2 := Step(s1, ShutdownEvent, env);
    SleepDialogRaised(s2, env);
    ReachableStep(s2, ConfirmationEvent(Confirmed(SleepAction), false), env);
    s := Step(s2, ConfirmationEvent(Confirmed(SleepAction), false), env);
  }

  /** A session without apps or clients, running, in which one application inhibits logout and suspend. */
  lemma InhibitedSession(env: Env) returns (s: Session)
    requires !env.lockedDown
    ensures Reachable(s) && s.phase == RUNNING && s.clients == {} && s.dialog == None && s.logoutMode == Normal
    ensures s.inhibitors == map[1 := BLOCKER]
  {
    var s1 := RunningSession(env);
    var e := InhibitEvent("app", "busy", LOGOUT_FLAG + SUSPEND_FLAG, ":1", 7);
    ReachableStep(s1, e, env);
    s := Step(s1, e, env);
  }

  lemma SleepDialogRaised(s: Session, env: Env)
    requires s.dialog == None && s.confirmation && s.logoutMode == Normal && s.inhibitors == map[1 := BLOCKER]
    ensures Step(s, ConfirmationEvent(Confirmed(SleepAction), false), env)
         == s.(confirmation := false, dialog := Some(Dialog(SleepAction, s.inhibitors.Keys)))
  {
    assert HasFlag(5, SUSPEND_FLAG);
    assert 1 in s.inhibitors && HasFlag(s.inhibitors[1].flags, SUSPEND_FLAG);
    assert AnyFlag(s.inhibitors, SUSPEND_FLAG);
  }

  lemma Blocked(s: Session)
    requires s.inhibitors == map[1 := BLOCKER]
    ensures LogoutInhibited(s)
  {
    assert HasFlag(5, LOGOUT_FLAG);
    assert 1 in s.inhibitors && HasFlag(s.inhibitors[1].flags, LOGOUT_FLAG);
  }

  lemma SleepDialogReused(s: Session, env: Env)
    requires s.phase == QUERY_END_SESSION && s.dialog.Some? && s.queryClients == multiset{} && s.queryTimer
    requires s.inhibitors == map[1 := BLOCKER]
    ensures Enabled(s, QueryTimeoutEvent([], []))
    ensures Step(s, QueryTimeoutEvent([], []), env) == s.(queryTimer := false)
  {
    Blocked(s.(queryTimer := false));
  }

  lemma SleepDialogAnswered(s: Session, env: Env)
    requires Brink(s) && s.inhibitors == map[1 := BLOCKER]
    ensures var r := Step(s, DialogAnsweredEvent(false), env); Stranded(r) && LogoutInhibited(r)
  {
    Blocked(DialogClosed(s));
  }

  lemma LogoutBegins(s: Session, env: Env)
    requires s.phase == RUNNING && s.clients == {} && !env.lockedDown
    ensures var r := LogoutCall(s, Some(NoConfirmation), env);
      && r.phase == QUERY_END_SESSION && r.queryTimer && r.queryClients == multiset{}
      && r.dialog == s.dialog && r.inhibitors == s.inhibitors
  {
    var s1 := Requesting(s.(logoutMode := NoConfirmation), Logout);
    assert LogoutCall(s, Some(NoConfirmation), env) == EndPhase(s1, Requested, env);
    assert EndPhase(s1, Requested, env) == StartPhase(Advance(s1, Requested, env), env);
  }
}
