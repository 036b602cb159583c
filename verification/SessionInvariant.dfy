/**
 What holds of the manager between any two events.
 */
module SessionInvariant {
  import opened SessionTypes

  // ---------- The invariant ----------

  /** While an inhibit dialog is up its rows are the inhibitor store's ids, and there is at least one. */
  ghost predicate Mirrored(s: Session) {
    s.dialog.Some? ==> s.dialog.value.rows == s.inhibitors.Keys && s.inhibitors.Keys != {}
  }

  /** A dialog that ends the session is up only after the session has left RUNNING. */
  ghost predicate DialogTimely(s: Session) {
    s.dialog.Some? && s.dialog.value.action.EndsSession() ==> s.phase >= QUERY_END_SESSION
  }

  /** JIT inhibitors exist only during a logout, block it, and carry their client's bus name. */
  ghost predicate StoreSound(s: Session) {
    forall i :: i in s.inhibitors ==>
      && i < s.nextInhibitor
      && (s.inhibitors[i].owner.Some? ==>
            && s.phase >= QUERY_END_SESSION
            && HasFlag(s.inhibitors[i].flags, LOGOUT_FLAG)
            && s.inhibitors[i].bus == s.inhibitors[i].owner.value.bus)
  }

  ghost predicate CookiesDistinct(inhibitors: map<nat, Inhibitor>) {
    forall i, j :: i in inhibitors && j in inhibitors && inhibitors[i].cookie == inhibitors[j].cookie ==> i == j
  }

  /** A logout type is set, and it is the one asked for last. */
  ghost predicate LastRequested(s: Session) {
    var requests := s.history.requests;
    s.logoutType != NoLogout && requests != [] && s.logoutType == requests[|requests| - 1]
  }

  ghost predicate TypeSettled(s: Session) {
    s.phase >= QUERY_END_SESSION ==> LastRequested(s)
  }

  ghost predicate IdleWatched(s: Session) {
    s.phase >= RUNNING ==> s.idleEnabled == !AnyFlag(s.inhibitors, IDLE_FLAG)
  }

  /** Confirmation dialogs and privilege requests are begun in RUNNING or later. */
  ghost predicate RequestsTimely(s: Session) {
    s.confirmation || s.privileges != {} ==> s.phase >= RUNNING
  }

  /** Last-round messages go out with nothing outstanding, to clients that asked to be last. */
  ghost predicate RoundOrdered(r: Round) {
    r.last ==> r.outstanding == multiset{} && forall c :: c in r.to ==> c in r.asked
  }

  ghost predicate LastOrdered(s: Session) {
    && (forall c :: c in s.nextQueryClients ==> c in s.history.askedLast)
    && (forall k :: 0 <= k < |s.history.rounds| ==> RoundOrdered(s.history.rounds[k]))
  }

  /** When a phase may end. */
  ghost predicate Justified(d: Departure) {
    && (d.phase < RUNNING ==> d.cause in {NothingToStart, AppsReady, PhaseTimedOut})
    && (d.phase == RUNNING ==> d.cause == Requested && !d.lockedDown)
    && (d.phase == QUERY_END_SESSION ==>
          || (d.cause == QueryComplete && !d.inhibited && d.outstanding == multiset{}
              && (d.mode == Force || d.unresolved == {}))
          || (d.cause == DialogAccepted && d.mode == Force)
          || (d.cause == LastClientLeft && d.clients == {})
          || d.cause == Requested)
    && (d.phase == END_SESSION ==>
          || (d.cause == RepliesIn && !d.inhibited && d.outstanding == multiset{} && d.postponed == [])
          || d.cause == PhaseTimedOut
          || (d.cause in {NoClients, LastClientLeft} && d.clients == {})
          || (d.cause == DialogAccepted && d.mode == Force)
          || d.cause == Requested)
  }

  ghost predicate DeparturesJustified(h: History) {
    forall k :: 0 <= k < |h.departures| ==> Justified(h.departures[k])
  }

  /** What no function disturbs, even halfway through an event. */
  ghost predicate Core(s: Session) {
    && Mirrored(s)
    && DialogTimely(s)
    && StoreSound(s)
    && CookiesDistinct(s.inhibitors)
    && TypeSettled(s)
    && RequestsTimely(s)
    && LastOrdered(s)
    && DeparturesJustified(s.history)
  }

  /** The first `n` startup phases were launched, each once, each with nothing left to wait for. */
  ghost predicate Launched(s: Session, n: nat) {
    && |s.history.launches| == n <= APPLICATION
    && forall k :: 0 <= k < n ==> s.history.launches[k] == Launch(k + 1, EligibleApps(s.apps, k + 1), {})
  }

  function LaunchedBy(phase: Phase): (n: nat)
    ensures n <= APPLICATION
  {
    if phase <= APPLICATION then phase else APPLICATION
  }

  /** `app_registered` is connected to exactly the pending apps, which are those still waited for. */
  ghost predicate AppsTracked(s: Session) {
    && s.pendingApps == multiset(s.handlers)
    && s.history.waiting == s.handlers
    && Launched(s, LaunchedBy(s.phase))
  }

  /** Every phase the manager rests in has something that will end it. */
  ghost predicate Armed(s: Session) {
    && s.phase != APPLICATION
    && (STARTUP < s.phase < APPLICATION ==> s.handlers != {} && s.phaseTimer)
    && (s.phase == STARTUP || s.phase >= APPLICATION ==> s.handlers == {})
    && (s.phase in {STARTUP, RUNNING} ==> !s.phaseTimer)
    && (s.queryTimer ==> s.phase == QUERY_END_SESSION)
    && (s.phase == QUERY_END_SESSION ==>
          && (s.queryTimer || s.queryClients == multiset{})
          && !s.phaseTimer)
    && (s.phase == END_SESSION ==> s.phaseTimer)
    && (s.phase == EXIT ==> s.history.quit == Some(s.logoutType) && !s.phaseTimer)
  }

  ghost predicate Idle(s: Session) {
    s.phase <= RUNNING ==> s.queryClients == multiset{} && s.nextQueryClients == []
  }

  ghost predicate Base(s: Session) {
    && Core(s)
    && IdleWatched(s)
    && AppsTracked(s)
    && Armed(s)
    && Idle(s)
  }

  ghost predicate Objects(inhibitors: map<nat, Inhibitor>, c: Client) {
    exists i :: i in inhibitors && inhibitors[i].owner == Some(c)
  }

  /** During an unforced query, every queried client that has not agreed or gone
      is still being asked or has an inhibitor standing for it. */
  ghost predicate Covered(s: Session) {
    s.phase == QUERY_END_SESSION && s.logoutMode != Force ==>
      forall c :: c in s.history.verdicts && s.history.verdicts[c].Open() ==>
        c in s.queryClients || Objects(s.inhibitors, c)
  }

  ghost predicate Inv(s: Session) {
    Base(s) && Covered(s)
  }

  lemma CreatedInv(apps: map<App, AppInfo>)
    ensures Inv(Created(apps))
  {
  }
}
