/**
 What one reply does to a logout: whom it takes off the list, and when it is
 the reply that moves the session on.
 */
module ReplyEffects {
  import opened SessionTypes
  import opened SessionSpec
  import ForwardProofs

  ghost predicate SameLists(s: Session, r: Session) {
    && r.phase == s.phase
    && r.queryClients == s.queryClients && r.nextQueryClients == s.nextQueryClients
    && r.queryTimer == s.queryTimer && r.history.rounds == s.history.rounds
  }

  /** Nothing but the phase moving on disturbs the lists. */
  ghost predicate ListsKept(s: Session, r: Session) {
    r.phase > s.phase || SameLists(s, r)
  }

  lemma ClosedKeepsLists(s: Session)
    requires s.dialog.Some?
    ensures SameLists(s, DialogClosed(s))
  {
  }

  lemma AcceptKeepsLists(s: Session, env: Env)
    requires s.dialog.Some? && QUERY_END_SESSION <= s.phase < EXIT
    ensures ListsKept(s, InhibitDialogResponse(s, true, env))
  {
    var s1, action := DialogClosed(s), s.dialog.value.action;
    ClosedKeepsLists(s);
    if action.EndsSession() {
      assert InhibitDialogResponse(s, true, env) == EndPhase(s1.(logoutMode := Force), DialogAccepted, env);
      ForwardProofs.EndPhaseOnward(s1.(logoutMode := Force), DialogAccepted, env);
    } else {
      assert InhibitDialogResponse(s, true, env) == PowerAction(s1, action, env);
    }
  }

  /** Dropping inhibitors either leaves the lists alone, or answers a dialog that moves the session on. */
  lemma RemoveKeepsLists(s: Session, gone: set<nat>, env: Env)
    requires QUERY_END_SESSION <= s.phase < EXIT
    ensures ListsKept(s, RemoveInhibitors(s, gone, env))
  {
    var r, s1 := RemoveInhibitors(s, gone, env), UpdateIdle(s.(inhibitors := s.inhibitors - gone));
    if s.inhibitors.Keys !! gone {
      assert r == s;
    } else if s.dialog.None? {
      assert r == s1;
    } else {
      var s2 := s1.(dialog := Some(s.dialog.value.(rows := s.dialog.value.rows - gone)));
      assert SameLists(s, s2);
      if s.dialog.value.rows - gone == {} {
        assert r == InhibitDialogResponse(s2, true, env);
        AcceptKeepsLists(s2, env);
      } else {
        assert r == s2;
      }
    }
  }

  /** Unless the phase moves on, a reply takes exactly one mention of its client off the list. */
  lemma TakeReplyTakesOne(s: Session, c: Client, ok: bool, last: bool, cookie: nat, env: Env)
    requires QUERY_END_SESSION <= s.phase < EXIT
    ensures ListsKept(s.(queryClients := s.queryClients - multiset{c}), TakeReply(s, c, ok, last, cookie, env))
  {
    var s1 := s.(queryClients := s.queryClients - multiset{c}, history := s.history.Answered(c, ok, last));
    var r := TakeReply(s, c, ok, last, cookie, env);
    if ok || s.logoutMode == Force {
      assert r == RemoveInhibitors(s1, OwnedBy(s1.inhibitors, c), env);
      RemoveKeepsLists(s1, OwnedBy(s1.inhibitors, c), env);
    } else {
      assert r == AddInhibitor(s1, JitInhibitor(c, cookie));
    }
  }

  lemma AfterReplyInQuery(s: Session, c: Client, last: bool, env: Env)
    requires s.phase == QUERY_END_SESSION
    ensures var r := AfterReply(s, c, last, env);
      && (s.queryClients != multiset{} ==> r == s)
      && (s.queryClients == multiset{} && LogoutInhibited(s) ==>
            r.phase == QUERY_END_SESSION && r.dialog.Some? && !r.queryTimer && r.queryClients == multiset{})
      && (s.queryClients == multiset{} && !LogoutInhibited(s) ==> r.phase > QUERY_END_SESSION)
  {
    if s.queryClients == multiset{} {
      var s1 := s.(queryTimer := false);
      assert AfterReply(s, c, last, env) == QueryEndSessionComplete(s, env);
      if LogoutInhibited(s) {
        assert QueryEndSessionComplete(s, env) == ShowInhibitDialog(s1, ActionFor(s.logoutType));
      } else {
        assert QueryEndSessionComplete(s, env) == EndPhase(s1, QueryComplete, env);
        ForwardProofs.EndPhaseOnward(s1, QueryComplete, env);
      }
    }
  }

  /** A reply during the query takes just its client off the list. With others outstanding the query goes on;
      after the last one it is over, or the inhibit dialog is up, according to whether anything inhibits. */
  lemma ReplyMovesQueryOn(s: Session, c: Client, ok: bool, last: bool, cookie: nat, env: Env)
    requires s.phase == QUERY_END_SESSION
    ensures var s1 := TakeReply(s, c, ok, last, cookie, env);
      var r, left := HandleResponse(s, c, ok, last, false, cookie, env), s.queryClients - multiset{c};
      if s1.phase != QUERY_END_SESSION then r.phase > QUERY_END_SESSION
      else if left != multiset{} then r == s1 && r.queryClients == left && r.queryTimer == s.queryTimer
      else if LogoutInhibited(s1) then
        r.phase == QUERY_END_SESSION && r.dialog.Some? && !r.queryTimer && r.queryClients == multiset{}
      else r.phase > QUERY_END_SESSION
  {
    var s1 := TakeReply(s, c, ok, last, cookie, env);
    TakeReplyTakesOne(s, c, ok, last, cookie, env);
    assert HandleResponse(s, c, ok, last, false, cookie, env) == AfterReply(s1, c, last, env);
    if s1.phase == QUERY_END_SESSION {
      AfterReplyInQuery(s1, c, last, env);
    } else {
      ForwardProofs.AfterReplyOnward(s1, c, last, env);
    }
  }

  /** END_SESSION with its last reply in: the postponed clients get their round, or the session exits. */
  ghost predicate MovedOn(s: Session, r: Session, postponed: seq<Client>, env: Env) {
    if postponed == [] then r.phase == EXIT
    else
      && r.phase == END_SESSION && r.nextQueryClients == []
      && r.queryClients == multiset(Delivered(postponed, LastMessage, env))
      && |r.history.rounds| == |s.history.rounds| + 1
      && r.history.rounds[|s.history.rounds|].last && r.history.rounds[|s.history.rounds|].to == r.queryClients
  }

  lemma AllRepliedMoves(s: Session, env: Env)
    requires s.phase == END_SESSION
    ensures var r := AllReplied(s, env);
      if s.queryClients != multiset{} || LogoutInhibited(s) then r == s
      else MovedOn(s, r, s.nextQueryClients, env)
  {
    if s.queryClients == multiset{} && !LogoutInhibited(s) {
      if s.nextQueryClients == [] {
        assert AllReplied(s, env) == EndPhase(s, RepliesIn, env);
        ForwardProofs.EndPhaseOnward(s, RepliesIn, env);
      } else {
        var to := multiset(Delivered(s.nextQueryClients, LastMessage, env));
        assert AllReplied(s, env) == AddRound(s, to, true, env).(nextQueryClients := []);
      }
    }
  }

  function Postponed(s: Session, c: Client, last: bool): (r: Session) {
    if last then s.(nextQueryClients := [c] + s.nextQueryClients) else s
  }

  /** A reply during END_SESSION takes just its client off the list, and puts it with the postponed if it asks
      for that. With others outstanding, or something inhibiting, END_SESSION goes on; otherwise the postponed
      clients get their last round, those of them the message reaches, and without any the session exits. */
  lemma ReplyMovesEndSessionOn(s: Session, c: Client, ok: bool, last: bool, cookie: nat, env: Env)
    requires s.phase == END_SESSION
    ensures var s1 := TakeReply(s, c, ok, last, cookie, env);
      var r, left := HandleResponse(s, c, ok, last, false, cookie, env), s.queryClients - multiset{c};
      if s1.phase != END_SESSION then r.phase == EXIT
      else if left != multiset{} || LogoutInhibited(s1) then r == Postponed(s1, c, last) && r.queryClients == left
      else MovedOn(s, r, Postponed(s, c, last).nextQueryClients, env)
  {
    var s1 := TakeReply(s, c, ok, last, cookie, env);
    TakeReplyTakesOne(s, c, ok, last, cookie, env);
    assert HandleResponse(s, c, ok, last, false, cookie, env) == AfterReply(s1, c, last, env);
    if s1.phase == END_SESSION {
      var s2 := Postponed(s1, c, last);
      assert AfterReply(s1, c, last, env) == AllReplied(s2, env);
      AllRepliedMoves(s2, env);
    } else {
      ForwardProofs.AfterReplyOnward(s1, c, last, env);
    }
  }
}
