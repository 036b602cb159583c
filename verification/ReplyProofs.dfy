/**
 Inhibitors, the inhibit dialog, cancelling and the clients' replies keep the invariant.
 */
module ReplyProofs {
  import opened SessionTypes
  import opened SessionSpec
  import opened SessionInvariant
  import opened PhaseProofs

  // ---------- Inhibitors ----------

  /** An inhibitor that may join the store now: fresh cookie; JIT only during a logout. */
  ghost predicate Admissible(s: Session, inhibitor: Inhibitor) {
    && inhibitor.cookie !in Cookies(s.inhibitors)
    && (inhibitor.owner.Some? ==>
          && s.phase >= QUERY_END_SESSION
          && HasFlag(inhibitor.flags, LOGOUT_FLAG)
          && inhibitor.bus == inhibitor.owner.value.bus)
  }

  lemma CookieFresh(inhibitors: map<nat, Inhibitor>, cookie: nat)
    requires cookie !in Cookies(inhibitors)
    ensures forall i :: i in inhibitors ==> inhibitors[i].cookie != cookie
  {
  }

  lemma AddCore(s: Session, inhibitor: Inhibitor)
    requires Core(s) && Admissible(s, inhibitor)
    ensures Core(AddInhibitor(s, inhibitor))
  {
    var r := AddInhibitor(s, inhibitor);
    CookieFresh(s.inhibitors, inhibitor.cookie);
    assert s.nextInhibitor !in s.inhibitors;
    assert Mirrored(r) by {
      assert s.nextInhibitor in r.inhibitors.Keys;
    }
    assert DialogTimely(r);
  }

  lemma AddBase(s: Session, inhibitor: Inhibitor)
    requires Base(s) && Admissible(s, inhibitor)
    ensures Base(AddInhibitor(s, inhibitor))
  {
    AddCore(s, inhibitor);
  }

  /** Adding an inhibitor keeps whoever was covered covered, and covers its own owner. */
  lemma AddObjects(s: Session, inhibitor: Inhibitor, c: Client)
    requires StoreSound(s)
    requires Objects(s.inhibitors, c) || inhibitor.owner == Some(c)
    ensures Objects(AddInhibitor(s, inhibitor).inhibitors, c)
  {
    var r := AddInhibitor(s, inhibitor);
    assert s.nextInhibitor !in s.inhibitors;
    if inhibitor.owner == Some(c) {
      assert r.inhibitors[s.nextInhibitor].owner == Some(c);
    } else {
      var i :| i in s.inhibitors && s.inhibitors[i].owner == Some(c);
      assert r.inhibitors[i].owner == Some(c);
    }
  }

  lemma AddInv(s: Session, inhibitor: Inhibitor)
    requires Inv(s) && Admissible(s, inhibitor)
    ensures Inv(AddInhibitor(s, inhibitor))
  {
    AddBase(s, inhibitor);
    forall c | Objects(s.inhibitors, c)
      ensures Objects(AddInhibitor(s, inhibitor).inhibitors, c)
    {
      AddObjects(s, inhibitor, c);
    }
  }

  // ---------- Cancelling and the inhibit dialog ----------

  /** The state `cancel_end_session` hands to `start_phase`. */
  ghost function Cancelled(s: Session, env: Env): (r: Session) {
    UpdateIdle(s.(dialog := None, inhibitors := s.inhibitors - Jit(s.inhibitors))).(
      phase := RUNNING, logoutMode := Normal, logoutType := NoLogout,
      history := s.history.(cancelled := s.history.cancelled + [Reached(s, CancelMessage, env)], quit := None))
  }

  /** Everything of the invariant that does not depend on a dialog being up. */
  ghost predicate Undisplayed(s: Session) {
    && Core(s.(dialog := None))
    && DialogTimely(s)
    && IdleWatched(s)
    && AppsTracked(s)
    && Armed(s)
    && Idle(s)
  }

  lemma CancelInv(s: Session, env: Env)
    requires Core(s.(dialog := None)) && AppsTracked(s) && s.handlers == {}
    requires s.phase >= QUERY_END_SESSION
    ensures Inv(CancelEndSession(s, env))
  {
    var s1 := Cancelled(s, env);
    assert Core(s1);
    StartPhaseInv(s1, env);
  }

  lemma AcceptDeparting(s: Session, env: Env)
    requires Core(s) && IdleWatched(s) && AppsTracked(s) && s.handlers == {} && s.phase >= QUERY_END_SESSION
    requires s.phase == EXIT ==> !s.queryTimer
    ensures Departing(s.(logoutMode := Force), DialogAccepted, env)
  {
    CoreFrame(s, s.(logoutMode := Force));
  }

  lemma PowerInv(s: Session, action: LogoutAction, env: Env)
    requires Inv(s)
    ensures Inv(PowerAction(s, action, env))
  {
    var h := s.history.(power := s.history.power + [action]);
    CoreFrame(s, s.(history := h));
  }

  /** A dialog that does not end the session is put away. */
  lemma PutAwayInv(s: Session)
    requires Undisplayed(s) && Covered(s) && s.dialog.Some?
    requires !s.dialog.value.action.EndsSession()
    ensures Inv(DialogClosed(s))
  {
  }

  lemma DialogResponseInv(s: Session, accept: bool, env: Env)
    requires s.dialog.Some? && Undisplayed(s) && Covered(s)
    ensures Inv(InhibitDialogResponse(s, accept, env))
  {
    var action := s.dialog.value.action;
    var s1 := DialogClosed(s);
    var r := InhibitDialogResponse(s, accept, env);
    if !action.EndsSession() {
      PutAwayInv(s);
      PowerInv(s1, action, env);
    } else if accept {
      assert r == EndPhase(s1.(logoutMode := Force), DialogAccepted, env);
      AcceptDeparting(s1, env);
      EndPhaseInv(s1.(logoutMode := Force), DialogAccepted, env);
    } else {
      assert r == CancelEndSession(s1, env);
      CancelInv(s1, env);
    }
  }

  lemma RemoveUndisplayed(s: Session, gone: set<nat>)
    requires Base(s)
    ensures Undisplayed(UpdateIdle(s.(inhibitors := s.inhibitors - gone)))
  {
    var r := UpdateIdle(s.(inhibitors := s.inhibitors - gone));
    assert Core(r.(dialog := None));
  }

  lemma RemoveSomeInv(s: Session, gone: set<nat>)
    requires Base(s) && Covered(s.(inhibitors := s.inhibitors - gone))
    requires s.dialog.Some? && s.dialog.value.rows - gone != {}
    ensures var r := UpdateIdle(s.(inhibitors := s.inhibitors - gone));
            Inv(r.(dialog := Some(s.dialog.value.(rows := s.dialog.value.rows - gone))))
  {
    RemoveUndisplayed(s, gone);
    var r := UpdateIdle(s.(inhibitors := s.inhibitors - gone));
    var r1 := r.(dialog := Some(s.dialog.value.(rows := s.dialog.value.rows - gone)));
    assert r1.inhibitors.Keys == s.inhibitors.Keys - gone;
    assert r1.(dialog := None) == r.(dialog := None);
    assert Core(r1);
  }

  lemma RemoveAllInv(s: Session, gone: set<nat>, env: Env)
    requires Base(s) && Covered(s.(inhibitors := s.inhibitors - gone))
    requires s.dialog.Some?
    ensures var r := UpdateIdle(s.(inhibitors := s.inhibitors - gone));
            var d := s.dialog.value.(rows := s.dialog.value.rows - gone);
            Inv(InhibitDialogResponse(r.(dialog := Some(d)), true, env))
  {
    RemoveUndisplayed(s, gone);
    var r := UpdateIdle(s.(inhibitors := s.inhibitors - gone));
    var r1 := r.(dialog := Some(s.dialog.value.(rows := s.dialog.value.rows - gone)));
    assert r1.(dialog := None) == r.(dialog := None);
    DialogResponseInv(r1, true, env);
  }

  lemma RemoveInv(s: Session, gone: set<nat>, env: Env)
    requires Base(s) && Covered(s.(inhibitors := s.inhibitors - gone))
    ensures Inv(RemoveInhibitors(s, gone, env))
  {
    if s.inhibitors.Keys !! gone {
      assert s.inhibitors - gone == s.inhibitors;
    } else if s.dialog.None? {
      RemoveUndisplayed(s, gone);
    } else if s.dialog.value.rows - gone == {} {
      RemoveAllInv(s, gone, env);
    } else {
      RemoveSomeInv(s, gone);
    }
  }

  // ---------- Replies ----------

  /** The query phase with its list emptied, whatever its timer. */
  ghost predicate Settling(s: Session) {
    && Core(s)
    && IdleWatched(s)
    && AppsTracked(s)
    && s.handlers == {}
    && s.phase == QUERY_END_SESSION
    && !s.phaseTimer
  }

  lemma CompleteInv(s: Session, env: Env)
    requires Settling(s) && Covered(s) && s.queryClients == multiset{}
    ensures Inv(QueryEndSessionComplete(s, env))
  {
    var s1 := s.(queryTimer := false);
    CoreFrame(s, s1);
    if !LogoutInhibited(s1) {
      CompleteDeparting(s1, env);
      EndPhaseInv(s1, QueryComplete, env);
    } else {
      ShowInv(s1, ActionFor(s1.logoutType));
    }
  }

  /** The unforced query may end only on unanimous consent: an open verdict would have an inhibitor behind it. */
  lemma CompleteDeparting(s: Session, env: Env)
    requires Core(s) && IdleWatched(s) && AppsTracked(s) && s.handlers == {} && Covered(s)
    requires s.phase == QUERY_END_SESSION && s.queryClients == multiset{} && !LogoutInhibited(s)
    ensures Departing(s, QueryComplete, env)
  {
  }

  lemma ShowInv(s: Session, action: LogoutAction)
    requires Core(s) && IdleWatched(s) && AppsTracked(s) && Idle(s) && Covered(s)
    requires s.inhibitors.Keys != {}
    requires Armed(s.(dialog := Some(Dialog(action, s.inhibitors.Keys))))
    requires action.EndsSession() ==> s.phase >= QUERY_END_SESSION
    ensures Inv(ShowInhibitDialog(s, action))
  {
    if s.dialog.None? {
      assert Core(s.(dialog := Some(Dialog(action, s.inhibitors.Keys))));
    }
  }

  /** What ending a phase of a logout leaves alone. */
  ghost predicate SameParties(s: Session, r: Session) {
    && r.phase >= s.phase
    && r.clients == s.clients
    && r.apps == s.apps
    && r.inhibitors == s.inhibitors
    && r.nextInhibitor == s.nextInhibitor
    && r.dialog == s.dialog
    && r.logoutMode == s.logoutMode
    && r.logoutType == s.logoutType
    && r.history.verdicts == s.history.verdicts
    && r.history.askedLast == s.history.askedLast
  }

  lemma {:induction false} EndPhaseParties(s: Session, why: Cause, env: Env)
    requires s.phase >= QUERY_END_SESSION
    ensures SameParties(s, EndPhase(s, why, env))
    decreases EXIT - s.phase, 0
  {
    if s.phase < EXIT {
      StartPhaseParties(Advance(s, why, env), env);
    }
  }

  lemma {:induction false} StartPhaseParties(s: Session, env: Env)
    requires s.phase >= END_SESSION
    ensures SameParties(s, StartPhase(s, env))
    decreases EXIT - s.phase, 1
  {
    var s1 := ClearLists(s).(queryTimer := false);
    if s.phase == END_SESSION {
      if s.clients == {} {
        EndPhaseParties(s1.(phaseTimer := false), NoClients, env);
      }
    } else {
      EndPhaseParties(s1.(history := s1.history.(stopped := s1.history.stopped + [Reached(s1, StopMessage, env)])),
                      Exiting, env);
    }
  }

  /** `r` records no fewer requests to go last than `s`. */
  ghost predicate AskedGrows(s: Session, r: Session) {
    s.history.askedLast <= r.history.askedLast
  }

  lemma RemoveAsked(s: Session, gone: set<nat>, env: Env)
    requires s.phase >= QUERY_END_SESSION
    ensures AskedGrows(s, RemoveInhibitors(s, gone, env))
  {
    var r := RemoveInhibitors(s, gone, env);
    if !(s.inhibitors.Keys !! gone) && s.dialog.Some? && s.dialog.value.rows - gone == {} {
      var s1 := UpdateIdle(s.(inhibitors := s.inhibitors - gone));
      var s2 := s1.(dialog := Some(s.dialog.value.(rows := s.dialog.value.rows - gone)));
      assert r == InhibitDialogResponse(s2, true, env);
      AcceptAsked(s2, env);
    }
  }

  lemma AcceptAsked(s: Session, env: Env)
    requires s.phase >= QUERY_END_SESSION && s.dialog.Some?
    ensures AskedGrows(s, InhibitDialogResponse(s, true, env))
  {
    var s1 := DialogClosed(s);
    assert s1.history.askedLast == s.history.askedLast && s1.phase == s.phase;
    ActionAsked(s1, s.dialog.value.action, env);
  }

  lemma ActionAsked(s: Session, action: LogoutAction, env: Env)
    requires s.phase >= QUERY_END_SESSION
    ensures AskedGrows(s, DoInhibitDialogAction(s, action, env))
  {
    if action.EndsSession() {
      EndPhaseParties(s.(logoutMode := Force), DialogAccepted, env);
    }
  }

  /** The state right after a reply is noted and before inhibitors change. */
  ghost function Noted(s: Session, c: Client, ok: bool, last: bool): (r: Session) {
    s.(queryClients := s.queryClients - multiset{c}, history := s.history.Answered(c, ok, last))
  }

  lemma NotedBase(s: Session, c: Client, ok: bool, last: bool)
    requires Base(s) && s.phase >= QUERY_END_SESSION
    ensures Base(Noted(s, c, ok, last))
  {
    var r := Noted(s, c, ok, last);
    assert LastOrdered(r);
    assert Core(r);
  }

  lemma RefusedCovered(s: Session, c: Client, last: bool, cookie: nat)
    requires Inv(s) && s.phase >= QUERY_END_SESSION
    ensures Covered(AddInhibitor(Noted(s, c, false, last), JitInhibitor(c, cookie)))
  {
    var s1 := Noted(s, c, false, last);
    var j := JitInhibitor(c, cookie);
    forall d | Objects(s1.inhibitors, d) || d == c
      ensures Objects(AddInhibitor(s1, j).inhibitors, d)
    {
      AddObjects(s1, j, d);
    }
  }

  lemma AgreedCovered(s: Session, c: Client, ok: bool, last: bool)
    requires Inv(s) && s.phase >= QUERY_END_SESSION
    requires ok || s.logoutMode == Force
    ensures var s1 := Noted(s, c, ok, last);
            Covered(s1.(inhibitors := s1.inhibitors - OwnedBy(s1.inhibitors, c)))
  {
    var s1 := Noted(s, c, ok, last);
    forall d | d != c && Objects(s1.inhibitors, d)
      ensures Objects(s1.inhibitors - OwnedBy(s1.inhibitors, c), d)
    {
      var i :| i in s1.inhibitors && s1.inhibitors[i].owner == Some(d);
      assert i in s1.inhibitors - OwnedBy(s1.inhibitors, c);
    }
  }

  lemma TakeReplyInv(s: Session, c: Client, ok: bool, last: bool, cookie: nat, env: Env)
    requires Inv(s) && s.phase >= QUERY_END_SESSION && (ok || cookie !in Cookies(s.inhibitors))
    ensures Inv(TakeReply(s, c, ok, last, cookie, env))
    ensures last ==> c in TakeReply(s, c, ok, last, cookie, env).history.askedLast
  {
    var s1 := Noted(s, c, ok, last);
    NotedBase(s, c, ok, last);
    if !ok && s.logoutMode != Force {
      AddBase(s1, JitInhibitor(c, cookie));
      RefusedCovered(s, c, last, cookie);
    } else {
      AgreedCovered(s, c, ok, last);
      RemoveInv(s1, OwnedBy(s1.inhibitors, c), env);
      RemoveAsked(s1, OwnedBy(s1.inhibitors, c), env);
    }
  }

  lemma {:induction false} DeliveredFrom(cs: seq<Client>, m: Message, env: Env)
    ensures forall c :: c in multiset(Delivered(cs, m, env)) ==> c in cs
  {
    if cs != [] {
      DeliveredFrom(cs[1..], m, env);
    }
  }

  lemma Part2Inv(s: Session, env: Env)
    requires Inv(s) && s.phase == END_SESSION && s.queryClients == multiset{} && s.nextQueryClients != []
    ensures Inv(DoPhaseEndSessionPart2(s, env))
  {
    DeliveredFrom(s.nextQueryClients, LastMessage, env);
    var r := DoPhaseEndSessionPart2(s, env);
    assert LastOrdered(r);
    assert Core(r);
  }

  lemma RepliesInDeparting(s: Session, env: Env)
    requires Inv(s) && s.phase == END_SESSION && s.queryClients == multiset{} && s.nextQueryClients == []
    requires !LogoutInhibited(s)
    ensures Departing(s, RepliesIn, env)
  {
  }

  lemma PostponedInv(s: Session, c: Client)
    requires Inv(s) && s.phase == END_SESSION && c in s.history.askedLast
    ensures Inv(s.(nextQueryClients := [c] + s.nextQueryClients))
  {
    assert Core(s.(nextQueryClients := [c] + s.nextQueryClients));
  }

  lemma AllRepliedInv(s: Session, env: Env)
    requires Inv(s) && s.phase == END_SESSION
    ensures Inv(AllReplied(s, env))
  {
    if s.queryClients == multiset{} && !LogoutInhibited(s) {
      if s.nextQueryClients != [] {
        Part2Inv(s, env);
      } else {
        RepliesInDeparting(s, env);
        EndPhaseInv(s, RepliesIn, env);
      }
    }
  }

  lemma AfterReplyInv(s: Session, c: Client, last: bool, env: Env)
    requires Inv(s) && (last ==> c in s.history.askedLast)
    ensures Inv(AfterReply(s, c, last, env))
  {
    if s.phase == QUERY_END_SESSION {
      if s.queryClients == multiset{} {
        CompleteInv(s, env);
      }
    } else if s.phase == END_SESSION {
      if last {
        PostponedInv(s, c);
        AllRepliedInv(s.(nextQueryClients := [c] + s.nextQueryClients), env);
      } else {
        AllRepliedInv(s, env);
      }
    }
  }

  lemma HandleResponseInv(s: Session, c: Client, ok: bool, last: bool, cancel: bool, cookie: nat, env: Env)
    requires Inv(s) && (ok || cookie !in Cookies(s.inhibitors))
    ensures Inv(HandleResponse(s, c, ok, last, cancel, cookie, env))
  {
    if s.phase >= QUERY_END_SESSION {
      if cancel {
        CancelInv(s, env);
      } else {
        TakeReplyInv(s, c, ok, last, cookie, env);
        AfterReplyInv(TakeReply(s, c, ok, last, cookie, env), c, last, env);
      }
    }
  }
}
