/**
 Disconnections, timeouts, app signals and requests keep the invariant.
 */
module EventProofs {
  import opened SessionTypes
  import opened SessionSpec
  import opened SessionInvariant
  import PhaseProofs
  import opened ReplyProofs

  // ---------- Disconnections ----------

  lemma ClientsFrame(s: Session, clients: set<Client>)
    requires Inv(s)
    ensures Inv(s.(clients := clients))
  {
    PhaseProofs.CoreFrame(s, s.(clients := clients));
  }

  lemma VerdictsFrame(s: Session, verdicts: map<Client, Verdict>)
    requires Base(s)
    ensures Base(s.(history := s.history.(verdicts := verdicts)))
  {
    PhaseProofs.CoreFrame(s, s.(history := s.history.(verdicts := verdicts)));
  }

  lemma GoneCovered(s: Session, c: Client)
    requires Inv(s)
    ensures var s1 := s.(history := s.history.Rule(c, Gone));
            Base(s1) && Covered(s1.(inhibitors := s1.inhibitors - OwnedBy(s1.inhibitors, c)))
  {
    var s1 := s.(history := s.history.Rule(c, Gone));
    if c in s.history.verdicts {
      VerdictsFrame(s, s.history.verdicts[c := Gone]);
    }
    forall d | d != c && Objects(s1.inhibitors, d)
      ensures Objects(s1.inhibitors - OwnedBy(s1.inhibitors, c), d)
    {
      var i :| i in s1.inhibitors && s1.inhibitors[i].owner == Some(d);
      assert i in s1.inhibitors - OwnedBy(s1.inhibitors, c);
    }
  }

  lemma DisconnectInv(s: Session, c: Client, env: Env)
    requires Inv(s)
    ensures Inv(DisconnectClient(s, c, env))
  {
    GoneCovered(s, c);
    var s0 := s.(history := s.history.Rule(c, Gone));
    RemoveInv(s0, OwnedBy(s.inhibitors, c), env);
    var s1 := RemoveInhibitors(s0, OwnedBy(s.inhibitors, c), env);
    if s1.phase == QUERY_END_SESSION {
      HandleResponseInv(s1, c, true, false, false, 0, env);
    }
  }

  lemma DesertedInv(s: Session, env: Env)
    requires Inv(s)
    ensures Inv(ExitIfDeserted(s, env))
  {
    if s.phase >= QUERY_END_SESSION && s.clients == {} {
      assert PhaseProofs.Departing(s, LastClientLeft, env);
      PhaseProofs.EndPhaseInv(s, LastClientLeft, env);
    }
  }

  lemma ClientDisconnectedInv(s: Session, c: Client, env: Env)
    requires Inv(s)
    ensures Inv(ClientDisconnected(s, c, env))
  {
    DisconnectInv(s, c, env);
    var s1 := DisconnectClient(s, c, env);
    ClientsFrame(s1, s1.clients - {c});
    DesertedInv(s1.(clients := s1.clients - {c}), env);
  }

  lemma {:induction false} DisconnectAllInv(s: Session, order: seq<Client>, env: Env)
    requires Inv(s)
    ensures Inv(DisconnectAll(s, order, env))
    decreases |order|
  {
    if order != [] {
      DisconnectInv(s, order[0], env);
      var s1 := DisconnectClient(s, order[0], env);
      ClientsFrame(s1, s1.clients - {order[0]});
      DisconnectAllInv(s1.(clients := s1.clients - {order[0]}), order[1..], env);
    }
  }

  lemma RemoveClientsInv(s: Session, order: seq<Client>, env: Env)
    requires Inv(s)
    ensures Inv(RemoveClientsForConnection(s, order, env))
  {
    DisconnectAllInv(s, order, env);
    DesertedInv(DisconnectAll(s, order, env), env);
  }

  /** Losing a bus name takes its clients' JIT inhibitors with it, and counts those clients as gone. */
  lemma BusGoneCovered(s: Session, bus: string)
    requires Inv(s)
    ensures var s1 := s.(history := s.history.BusGone(bus));
            Base(s1) && Covered(s1.(inhibitors := s1.inhibitors - FromBus(s1.inhibitors, bus)))
  {
    var s1 := s.(history := s.history.BusGone(bus));
    VerdictsFrame(s, s1.history.verdicts);
    forall d: Client | d.bus != Some(bus) && Objects(s1.inhibitors, d)
      ensures Objects(s1.inhibitors - FromBus(s1.inhibitors, bus), d)
    {
      var i :| i in s1.inhibitors && s1.inhibitors[i].owner == Some(d);
      assert i in s1.inhibitors - FromBus(s1.inhibitors, bus);
    }
  }

  lemma BusNameLostInv(s: Session, bus: string, order: seq<Client>, env: Env)
    requires Inv(s)
    ensures Inv(BusNameLost(s, bus, order, env))
  {
    BusGoneCovered(s, bus);
    var s1 := s.(history := s.history.BusGone(bus));
    RemoveInv(s1, FromBus(s1.inhibitors, bus), env);
    RemoveClientsInv(RemoveInhibitors(s1, FromBus(s1.inhibitors, bus), env), order, env);
  }

  lemma BusDisconnectedInv(s: Session, order: seq<Client>, env: Env)
    requires Inv(s)
    ensures Inv(BusDisconnected(s, order, env))
  {
    PhaseProofs.CoreFrame(s, s.(busDisconnected := true));
    RemoveClientsInv(s.(busDisconnected := true), order, env);
  }

  // ---------- Timeouts and app signals ----------

  lemma TimedOutDeparting(s: Session, env: Env)
    requires Inv(s) && s.phaseTimer
    ensures PhaseProofs.Departing(TimedOut(s), PhaseTimedOut, env)
  {
    if s.phase > APPLICATION {
      PhaseProofs.CoreFrame(s, s.(phaseTimer := false));
    } else {
      var late := set a | a in s.pendingApps;
      assert late == s.handlers;
      PhaseProofs.CoreFrame(s, TimedOut(s));
    }
  }

  lemma PhaseTimeoutInv(s: Session, env: Env)
    requires Inv(s) && s.phaseTimer
    ensures Inv(PhaseTimeout(s, env))
  {
    TimedOutDeparting(s, env);
    PhaseProofs.EndPhaseInv(TimedOut(s), PhaseTimedOut, env);
  }

  lemma SignalledTracked(s: Session, a: App)
    requires Inv(s) && a in s.handlers
    ensures s.pendingApps - multiset{a} == multiset(s.handlers - {a})
    ensures s.pendingApps - multiset{a} == multiset{} ==> s.handlers == {a}
  {
    assert multiset(s.handlers) == multiset(s.handlers - {a}) + multiset{a};
    if b :| b in s.handlers && b != a {
      assert b in s.pendingApps - multiset{a};
    }
  }

  lemma SignalledInv(s: Session, a: App)
    requires Inv(s) && a in s.handlers && s.handlers != {a}
    ensures Inv(Signalled(s, a))
  {
    SignalledTracked(s, a);
    PhaseProofs.CoreFrame(s, Signalled(s, a));
  }

  lemma LastSignalDeparting(s: Session, a: App, env: Env)
    requires Inv(s) && s.handlers == {a}
    ensures PhaseProofs.Departing(Signalled(s, a).(phaseTimer := false), AppsReady, env)
  {
    PhaseProofs.CoreFrame(s, Signalled(s, a).(phaseTimer := false));
  }

  lemma PendingSignalInv(s: Session, a: App, env: Env)
    requires Inv(s) && a in s.handlers
    ensures Inv(AppSignal(s, a, env))
  {
    SignalledTracked(s, a);
    if s.handlers == {a} {
      assert s.pendingApps == multiset{a};
      LastSignalDeparting(s, a, env);
      PhaseProofs.EndPhaseInv(Signalled(s, a).(phaseTimer := false), AppsReady, env);
    } else {
      SignalledInv(s, a);
    }
  }

  lemma AppSignalInv(s: Session, a: App, env: Env)
    requires Inv(s)
    ensures Inv(AppSignal(s, a, env))
  {
    if a in s.handlers {
      PendingSignalInv(s, a, env);
    } else {
      assert s.history.waiting - {a} == s.history.waiting;
      assert AppSignal(s, a, env) == s;
    }
  }

  /** The cookies a query timeout will use: one fresh cookie for each silent client. */
  ghost predicate CookiesFor(s: Session, silent: seq<Client>, cookies: seq<nat>) {
    && |silent| <= |cookies|
    && (forall i :: 0 <= i < |cookies| ==> cookies[i] !in Cookies(s.inhibitors))
    && (forall i, j :: 0 <= i < j < |cookies| ==> cookies[i] != cookies[j])
  }

  lemma AddSettling(s: Session, c: Client, cookie: nat)
    requires Settling(s) && cookie !in Cookies(s.inhibitors)
    ensures Settling(AddInhibitor(s, JitInhibitor(c, cookie)))
  {
    AddCore(s, JitInhibitor(c, cookie));
  }

  lemma AddCookies(s: Session, silent: seq<Client>, cookies: seq<nat>)
    requires CookiesFor(s, silent, cookies) && silent != []
    ensures CookiesFor(AddInhibitor(s, JitInhibitor(silent[0], cookies[0])), silent[1..], cookies[1..])
  {
    var r := AddInhibitor(s, JitInhibitor(silent[0], cookies[0]));
    forall k | k in Cookies(r.inhibitors)
      ensures k in Cookies(s.inhibitors) || k == cookies[0]
    {
      var i :| i in r.inhibitors && r.inhibitors[i].cookie == k;
      if i != s.nextInhibitor {
        assert s.inhibitors[i].cookie == k;
      }
    }
  }

  lemma {:induction false} SilentSettling(s: Session, silent: seq<Client>, cookies: seq<nat>)
    requires Settling(s) && CookiesFor(s, silent, cookies)
    ensures var r := InhibitForSilent(s, silent, cookies);
            && Settling(r)
            && r.history == s.history
            && r.logoutMode == s.logoutMode
            && forall c :: Objects(s.inhibitors, c) || c in silent ==> Objects(r.inhibitors, c)
    decreases |silent|
  {
    if silent != [] {
      var s1 := AddInhibitor(s, JitInhibitor(silent[0], cookies[0]));
      AddSettling(s, silent[0], cookies[0]);
      AddCookies(s, silent, cookies);
      SilentSettling(s1, silent[1..], cookies[1..]);
      forall c | Objects(s.inhibitors, c) || c in silent
        ensures Objects(s1.inhibitors, c) || c in silent[1..]
      {
        if c == silent[0] || Objects(s.inhibitors, c) {
          AddObjects(s, JitInhibitor(silent[0], cookies[0]), c);
        }
      }
    }
  }

  lemma QueryTimeoutInv(s: Session, silent: seq<Client>, cookies: seq<nat>, env: Env)
    requires Inv(s) && s.queryTimer && multiset(silent) == s.queryClients && CookiesFor(s, silent, cookies)
    ensures Inv(QueryTimeout(s, silent, cookies, env))
  {
    var s1 := s.(queryTimer := false);
    PhaseProofs.CoreFrame(s, s1);
    if s.logoutMode == Force {
      PhaseProofs.CoreFrame(s1, s1.(queryClients := multiset{}));
      CompleteInv(s1.(queryClients := multiset{}), env);
    } else {
      SilentSettling(s1, silent, cookies);
      var s2 := InhibitForSilent(s1, silent, cookies);
      PhaseProofs.CoreFrame(s2, s2.(queryClients := multiset{}));
      SilentCovered(s, silent, s2);
      CompleteInv(s2.(queryClients := multiset{}), env);
    }
  }

  lemma SilentCovered(s: Session, silent: seq<Client>, r: Session)
    requires Inv(s) && s.phase == QUERY_END_SESSION && multiset(silent) == s.queryClients
    requires r.history == s.history && r.logoutMode == s.logoutMode
    requires forall c :: Objects(s.inhibitors, c) || c in silent ==> Objects(r.inhibitors, c)
    ensures Covered(r.(queryClients := multiset{}))
  {
    forall c | c in s.queryClients
      ensures c in silent
    {
      assert c in multiset(silent);
    }
  }

  // ---------- Requests ----------

  lemma WaivedBase(s: Session, inhibitor: Inhibitor)
    requires Base(s)
    ensures Base(s.(history := Waive(s.history, inhibitor)))
  {
    if inhibitor.owner.Some? && inhibitor.owner.value in s.history.verdicts {
      VerdictsFrame(s, s.history.verdicts[inhibitor.owner.value := Waived]);
    }
  }

  lemma WaivedCovered(s: Session, i: nat)
    requires Inv(s) && i in s.inhibitors
    ensures Covered(s.(history := Waive(s.history, s.inhibitors[i]), inhibitors := s.inhibitors - {i}))
  {
    forall d | Objects(s.inhibitors, d) && s.inhibitors[i].owner != Some(d)
      ensures Objects(s.inhibitors - {i}, d)
    {
      var j :| j in s.inhibitors && s.inhibitors[j].owner == Some(d);
      assert j in s.inhibitors - {i};
    }
  }

  lemma UninhibitInv(s: Session, cookie: nat, env: Env)
    requires Inv(s)
    ensures Inv(Uninhibit(s, cookie, env))
  {
    match FindByCookie(s.inhibitors, cookie)
    case None =>
    case Some(i) =>
      WaivedBase(s, s.inhibitors[i]);
      WaivedCovered(s, i);
      RemoveInv(s.(history := Waive(s.history, s.inhibitors[i])), {i}, env);
  }

  lemma RequestInv(s: Session, t: LogoutType, env: Env)
    requires Inv(s) && s.phase >= RUNNING && t != NoLogout
    ensures Inv(Request(s, t, env))
  {
    var s1 := Requesting(s, t);
    assert Core(s1);
    assert PhaseProofs.Departing(s1, Requested, env);
    PhaseProofs.EndPhaseInv(s1, Requested, env);
  }

  lemma ModeInv(s: Session, mode: LogoutMode)
    requires Inv(s) && s.phase <= RUNNING
    ensures Inv(s.(logoutMode := mode))
  {
    PhaseProofs.CoreFrame(s, s.(logoutMode := mode));
  }

  lemma ConfirmationShownInv(s: Session)
    requires Inv(s) && s.phase >= RUNNING
    ensures Inv(ShowConfirmation(s))
  {
    if s.phase == RUNNING {
      assert Core(s.(logoutMode := Normal, confirmation := true));
    }
  }
}
