/**
 The session manager as the object it is: private fields, and methods that
 update them. Every method is proved to take the snapshot of the fields where
 the specification says, and every event handler to keep the invariant.
 */
module SessionManager {
  import opened Sequences
  import opened SessionTypes
  import opened SessionSpec
  import opened SessionInvariant
  import ReplyProofs
  import opened EventProofs
  import opened SessionRuns
  import opened SessionLogs

  /** `g_slist_remove`: the first occurrence goes. */
  function RemoveFirst<T(==)>(xs: seq<T>, x: T): (r: seq<T>)
    ensures multiset(r) == multiset(xs) - multiset{x}
  {
    if xs == [] then []
    else if xs[0] == x then
      assert xs == [xs[0]] + xs[1..];
      xs[1..]
    else
      assert xs == [xs[0]] + xs[1..];
      [xs[0]] + RemoveFirst(xs[1..], x)
  }

  function Reversed<T>(xs: seq<T>): (r: seq<T>) {
    if xs == [] then [] else Reversed(xs[1..]) + [xs[0]]
  }

  lemma {:induction false} ReversedNext<T>(xs: seq<T>, x: T)
    ensures Reversed(xs + [x]) == [x] + Reversed(xs)
  {
    if xs == [] {
      assert xs + [x] == [x];
    } else {
      assert (xs + [x])[1..] == xs[1..] + [x];
      ReversedNext(xs[1..], x);
      assert [x] + Reversed(xs[1..]) + [xs[0]] == [x] + (Reversed(xs[1..]) + [xs[0]]);
    }
  }

  lemma {:induction false} ReversedMultiset<T>(xs: seq<T>)
    ensures multiset(Reversed(xs)) == multiset(xs)
  {
    if xs != [] {
      ReversedMultiset(xs[1..]);
      assert xs == [xs[0]] + xs[1..];
    }
  }

  lemma {:induction false} DeliveredNext(cs: seq<Client>, i: nat, m: Message, env: Env)
    requires i < |cs|
    ensures Delivered(cs[..i + 1], m, env)
         == Delivered(cs[..i], m, env) + (if env.delivers(m, cs[i]) then [cs[i]] else [])
    decreases i
  {
    if i > 0 {
      assert cs[..i + 1][1..] == cs[1..][..i];
      assert cs[..i][1..] == cs[1..][..i - 1];
      DeliveredNext(cs[1..], i - 1, m, env);
    }
  }

  /** `xs` lists the elements of `s`, each once. */
  ghost predicate Lists<T>(xs: seq<T>, s: set<T>) {
    && (forall i, j :: 0 <= i < j < |xs| ==> xs[i] != xs[j])
    && (forall x :: x in xs ==> x in s) && (forall x :: x in s ==> x in xs)
  }

  function Elements<T>(xs: seq<T>): (s: set<T>) {
    set x | x in xs
  }

  lemma ListedElements<T>(xs: seq<T>, s: set<T>)
    requires Lists(xs, s)
    ensures Elements(xs) == s
  {
  }

  /** One more visit of a loop that lists `goal` by going through `todo`. */
  lemma ListNext<T>(xs: seq<T>, goal: set<T>, todo: set<T>, x: T)
    requires Lists(xs, goal - todo) && x in todo
    ensures x in goal ==> Lists([x] + xs, goal - (todo - {x}))
    ensures x !in goal ==> Lists(xs, goal - (todo - {x}))
  {
    assert forall y :: y in [x] + xs <==> y == x || y in xs;
  }

  lemma {:induction false} ListedMultiset<T>(xs: seq<T>, s: set<T>)
    requires Lists(xs, s)
    ensures multiset(xs) == multiset(s)
    decreases |xs|
  {
    if xs == [] {
      assert s == {};
    } else {
      assert xs == [xs[0]] + xs[1..];
      assert forall y :: y in xs <==> y == xs[0] || y in xs[1..];
      assert xs[0] !in xs[1..];
      ListedMultiset(xs[1..], s - {xs[0]});
      assert multiset(s) == multiset(s - {xs[0]}) + multiset{xs[0]};
    }
  }

  class Manager {
    var phase: Phase
    var phaseTimer: bool
    var queryTimer: bool
    var pendingApps: seq<App>
    var handlers: set<App>
    var logoutMode: LogoutMode
    var logoutType: LogoutType
    var queryClients: seq<Client>
    var nextQueryClients: seq<Client>
    var dialog: Option<Dialog>
    var confirmation: bool
    var privileges: set<bool>
    var clients: set<Client>
    var inhibitors: map<nat, Inhibitor>
    var nextInhibitor: nat
    var apps: map<App, AppInfo>
    var idleEnabled: bool
    var busDisconnected: bool
    ghost var history: History
    /** The calls that start an app, and the messages that got through, latest first. */
    ghost var attempts: seq<App>
    ghost var sent: seq<(Message, Client)>

    ghost function View(): (s: Session)
      reads this
    {
      Session(phase, phaseTimer, queryTimer, multiset(pendingApps), handlers, logoutMode, logoutType,
              multiset(queryClients), nextQueryClients, dialog, confirmation, privileges, clients, inhibitors,
              nextInhibitor, apps, idleEnabled, busDisconnected, history)
    }

    /** The history is right about the calls and the messages. */
    ghost predicate Logged()
      reads this`history, this`attempts, this`sent
    {
      StartsLogged(attempts, history.launches) && SendsLogged(sent, TrafficOf(history))
    }

    /** What holds between any two events. */
    ghost predicate Valid()
      reads this
    {
      Inv(View()) && Logged()
    }

    constructor (apps: map<App, AppInfo>)
      ensures View() == Created(apps) && Valid()
    {
      phase, phaseTimer, queryTimer, pendingApps, handlers := STARTUP, false, false, [], {};
      logoutMode, logoutType, queryClients, nextQueryClients := Normal, NoLogout, [], [];
      dialog, confirmation, privileges, clients := None, false, {}, {};
      inhibitors, nextInhibitor, idleEnabled, busDisconnected := map[], 1, false, false;
      this.apps := apps;
      history, attempts, sent := EMPTY_HISTORY, [], [];
      new;
      CreatedInv(apps);
      NothingLogged();
    }

    /** Every app that was due by the phase reached has been started exactly once since the object was created,
        and no other app at all. */
    lemma EachAppStartedOnce(a: App)
      requires Valid()
      ensures multiset(attempts)[a] == if DueBy(apps, a, LaunchedBy(phase)) then 1 else 0
    {
      StartedExactlyOnce(View(), attempts, a);
    }

    // ---------- Single fields ----------

    ghost method Record(h: History)
      modifies this`history
      ensures View() == old(View()).(history := h)
    {
      history := h;
    }

    /** The note of a round that has just been sent, when `before` was sent already. */
    ghost method RecordRound(h: History, told: seq<Client>, before: seq<(Message, Client)>)
      requires StartsLogged(attempts, history.launches) && SendsLogged(before, TrafficOf(history))
      requires |h.rounds| > 0 && h == history.(rounds := history.rounds + [h.rounds[|h.rounds| - 1]])
      requires var round := h.rounds[|h.rounds| - 1];
        multiset(told) == round.to && sent == Each(if round.last then LastMessage else EndMessage, told) + before
      modifies this`history
      ensures View() == old(View()).(history := h) && Logged()
    {
      RoundLogged(before, TrafficOf(history), told, h.rounds[|h.rounds| - 1]);
      history := h;
    }

    /** The note of the starts that have just been made, when `before` had been made already. */
    ghost method RecordLaunch(tried: seq<App>, awaited: set<App>, before: seq<App>)
      requires StartsLogged(before, history.launches) && SendsLogged(sent, TrafficOf(history))
      requires Lists(tried, Elements(tried)) && attempts == tried + before
      modifies this`history
      ensures var s := old(View());
              View() == s.(history := NoteLaunch(s, Elements(tried)).(waiting := s.history.waiting + awaited))
      ensures Logged()
    {
      ListedMultiset(tried, Elements(tried));
      LaunchLogged(before, history.launches, tried, Launch(phase, Elements(tried), history.waiting));
      history := NoteLaunch(View(), Elements(tried)).(waiting := history.waiting + awaited);
    }

    /** A note about anything but launches and messages. */
    ghost method Note(h: History)
      requires Logged() && h.launches == history.launches && TrafficOf(h) == TrafficOf(history)
      modifies this`history
      ensures View() == old(View()).(history := h) && Logged()
    {
      history := h;
    }

    method SetPhaseTimer(armed: bool)
      modifies this`phaseTimer
      ensures View() == old(View()).(phaseTimer := armed)
    {
      phaseTimer := armed;
    }

    method SetQueryTimer(armed: bool)
      modifies this`queryTimer
      ensures View() == old(View()).(queryTimer := armed)
    {
      queryTimer := armed;
    }

    method SetPhase(p: Phase)
      modifies this`phase
      ensures View() == old(View()).(phase := p)
    {
      phase := p;
    }

    method SetDialog(d: Option<Dialog>)
      modifies this`dialog
      ensures View() == old(View()).(dialog := d)
    {
      dialog := d;
    }

    method DropLists()
      modifies this`pendingApps, this`queryClients, this`nextQueryClients
      ensures pendingApps == [] && queryClients == [] && nextQueryClients == []
    {
      pendingApps, queryClients, nextQueryClients := [], [], [];
    }

    // ---------- Inhibitors ----------

    /** `csm_store_find` with `inhibitor_has_flag`. */
    method HasInhibitor(flag: nat) returns (found: bool)
      requires flag > 0
      ensures found == AnyFlag(inhibitors, flag)
    {
      var todo := inhibitors.Keys;
      found := false;
      while todo != {} && !found
        invariant todo <= inhibitors.Keys
        invariant !found ==> forall i :: i in inhibitors.Keys - todo ==> !HasFlag(inhibitors[i].flags, flag)
        invariant found ==> AnyFlag(inhibitors, flag)
        decreases todo
      {
        var i :| i in todo;
        todo := todo - {i};
        found := HasFlag(inhibitors[i].flags, flag);
      }
    }

    method UpdateIdleWatch()
      modifies this`idleEnabled
      ensures View() == UpdateIdle(old(View()))
    {
      var inhibited := HasInhibitor(IDLE_FLAG);
      idleEnabled := !inhibited;
    }

    method InsertInhibitor(inhibitor: Inhibitor) returns (id: nat)
      modifies this`inhibitors, this`nextInhibitor
      ensures id == old(nextInhibitor) && nextInhibitor == id + 1
      ensures inhibitors == old(inhibitors)[id := inhibitor]
    {
      id := nextInhibitor;
      inhibitors, nextInhibitor := inhibitors[id := inhibitor], id + 1;
    }

    /** `csm_store_add`, with the "added" handlers of the dialog and the manager. */
    method AddToStore(inhibitor: Inhibitor)
      modifies this`inhibitors, this`nextInhibitor, this`dialog, this`idleEnabled
      ensures View() == AddInhibitor(old(View()), inhibitor)
    {
      AddWithRow(inhibitor);
      UpdateIdleWatch();
    }

    method AddWithRow(inhibitor: Inhibitor)
      modifies this`inhibitors, this`nextInhibitor, this`dialog
      ensures var s := old(View());
              var id := s.nextInhibitor;
              View() == s.(inhibitors := s.inhibitors[id := inhibitor], nextInhibitor := id + 1,
                           dialog := AddRow(s.dialog, id))
    {
      var id := InsertInhibitor(inhibitor);
      SetDialog(AddRow(dialog, id));
    }

    // ---------- Phases ----------

    method Clear()
      modifies this`pendingApps, this`queryClients, this`nextQueryClients, this`phaseTimer
      ensures View() == ClearLists(old(View()))
    {
      DropLists();
      SetPhaseTimer(false);
    }

    method NoteDeparture(ghost why: Cause, env: Env)
      requires Logged()
      requires phase < EXIT
      modifies this`history
      ensures Logged()
      ensures View() == old(View()).(history := Advance(old(View()), why, env).history)
    {
      Note(Depart(View(), why, env));
      if phase == END_SESSION && env.autoSave {
        Note(history.(saves := history.saves + 1));
      }
    }

    method Climb()
      requires phase < EXIT
      modifies this`pendingApps, this`queryClients, this`nextQueryClients, this`phaseTimer, this`phase
      ensures View() == ClearLists(old(View())).(phase := old(phase) + 1)
    {
      Clear();
      SetPhase(phase + 1);
    }

    /** The middle of `end_phase`: the session may be saved, and the phase goes up. */
    method SaveAndAdvance(ghost why: Cause, env: Env)
      requires Logged()
      requires phase < EXIT
      modifies this`pendingApps, this`queryClients, this`nextQueryClients, this`phaseTimer, this`phase, this`history
      ensures Logged()
      ensures View() == Advance(old(View()), why, env)
    {
      ghost var s := View();
      NoteDeparture(why, env);
      Climb();
      assert View() == ClearLists(s).(phase := s.phase + 1, history := history);
    }

    /** `csm_manager_quit`. */
    method QuitSession()
      requires Logged()
      modifies this`pendingApps, this`queryClients, this`nextQueryClients, this`phaseTimer, this`history
      ensures Logged()
      ensures View() == Quit(ClearLists(old(View())))
    {
      Clear();
      Note(history.(quit := Some(logoutType)));
    }

    method End(ghost why: Cause, env: Env)
      requires Logged()
      modifies this
      ensures Logged()
      ensures View() == EndPhase(old(View()), why, env)
      decreases EXIT - phase, 0
    {
      if phase == RUNNING && env.lockedDown {
        Clear();
      } else if phase == EXIT {
        QuitSession();
      } else {
        SaveAndAdvance(why, env);
        Begin(env);
      }
    }

    method Reset()
      modifies this`pendingApps, this`queryClients, this`nextQueryClients, this`phaseTimer, this`queryTimer
      ensures View() == ClearLists(old(View())).(queryTimer := false)
    {
      Clear();
      SetQueryTimer(false);
    }

    method Begin(env: Env)
      requires Logged()
      modifies this
      ensures Logged()
      ensures View() == StartPhase(old(View()), env)
      decreases EXIT - phase, 2
    {
      Reset();
      if phase <= APPLICATION {
        BeginStartup(env);
      } else if phase == RUNNING {
        UpdateIdleWatch();
      } else if phase == QUERY_END_SESSION {
        BeginQuery(env);
      } else if phase == END_SESSION {
        BeginEndSession(env);
      } else {
        BeginExit(env);
      }
    }

    /** `csm_app_start`. */
    method CallStart(a: App, env: Env) returns (ok: bool)
      modifies this`attempts
      ensures ok == env.launches(a) && attempts == [a] + old(attempts)
    {
      attempts := [a] + attempts;
      ok := env.launches(a);
    }

    /** `_start_app` for one app: before APPLICATION a successful launch is waited for. */
    method StartApp(a: App, env: Env) returns (awaited: bool)
      requires a in apps
      modifies this`pendingApps, this`handlers, this`attempts
      ensures Eligible(apps[a], phase) ==> attempts == [a] + old(attempts)
      ensures !Eligible(apps[a], phase) ==> attempts == old(attempts)
      ensures awaited <==> Awaits(apps[a], phase, a, env)
      ensures awaited ==> pendingApps == [a] + old(pendingApps) && handlers == old(handlers) + {a}
      ensures !awaited ==> pendingApps == old(pendingApps) && handlers == old(handlers)
    {
      if apps[a].phase != phase {
        return false;
      }
      if apps[a].disabled || apps[a].conditionallyDisabled {
        return false;
      }
      if apps[a].delay > 0 {
        return false;
      }
      var ok := CallStart(a, env);
      if !ok {
        return false;
      }
      awaited := phase < APPLICATION;
      if awaited {
        handlers := handlers + {a};
        pendingApps := [a] + pendingApps;
      }
    }

    /** `csm_store_foreach` over the app store. The launch that is noted is the calls that were made. */
    method StartApps(env: Env) returns (ghost tried: seq<App>)
      requires Logged()
      modifies this`pendingApps, this`handlers, this`history, this`attempts
      ensures Logged()
      ensures attempts == tried + old(attempts) && Lists(tried, EligibleApps(apps, phase))
      ensures View() == LaunchApps(old(View()), env)
    {
      ghost var s := View();
      ghost var awaited := Awaited(s, env);
      tried := StartAwaited(EligibleApps(apps, phase), awaited, env);
      ListedElements(tried, EligibleApps(apps, phase));
      RecordLaunch(tried, awaited, old(attempts));
    }

    method StartAwaited(ghost eligible: set<App>, ghost awaited: set<App>, env: Env) returns (ghost tried: seq<App>)
      requires forall a :: a in eligible <==> a in apps && Eligible(apps[a], phase)
      requires forall a :: a in awaited <==> a in apps && Awaits(apps[a], phase, a, env)
      modifies this`pendingApps, this`handlers, this`attempts
      ensures Lists(tried, eligible) && attempts == tried + old(attempts)
      ensures var s := old(View());
              View() == s.(pendingApps := s.pendingApps + multiset(awaited), handlers := s.handlers + awaited)
    {
      ghost var started: seq<App>;
      tried, started := StartEach(eligible, awaited, env);
      ListedMultiset(started, awaited);
    }

    /** The loop over the apps: each eligible one is started, once, and no other. */
    method StartEach(ghost eligible: set<App>, ghost awaited: set<App>, env: Env)
      returns (ghost tried: seq<App>, ghost started: seq<App>)
      requires forall a :: a in eligible <==> a in apps && Eligible(apps[a], phase)
      requires forall a :: a in awaited <==> a in apps && Awaits(apps[a], phase, a, env)
      modifies this`pendingApps, this`handlers, this`attempts
      ensures Lists(tried, eligible) && attempts == tried + old(attempts)
      ensures Lists(started, awaited)
      ensures pendingApps == started + old(pendingApps) && handlers == old(handlers) + awaited
    {
      tried, started := [], [];
      var todo := apps.Keys;
      while todo != {}
        invariant todo <= apps.Keys && Lists(tried, eligible - todo) && Lists(started, awaited - todo)
        invariant attempts == tried + old(attempts)
        invariant pendingApps == started + old(pendingApps)
        invariant handlers == old(handlers) + (awaited - todo)
        decreases todo
      {
        var a :| a in todo;
        ListNext(tried, eligible, todo, a);
        ListNext(started, awaited, todo, a);
        Regroup([a], tried, old(attempts));
        Regroup([a], started, old(pendingApps));
        var waits := StartApp(a, env);
        if a in eligible {
          tried := [a] + tried;
        }
        if waits {
          started := [a] + started;
        }
        todo := todo - {a};
      }
      assert eligible - todo == eligible && awaited - todo == awaited;
    }

    method BeginStartup(env: Env)
      requires Logged()
      modifies this
      ensures Logged()
      ensures View() == DoPhaseStartup(old(View()), env)
      decreases EXIT - phase, 1
    {
      ghost var tried := StartApps(env);
      if pendingApps != [] {
        assert pendingApps[0] in multiset(pendingApps);
        if phase < APPLICATION {
          SetPhaseTimer(true);
        }
      } else {
        End(NothingToStart, env);
      }
    }

    /** One message to one client; what comes of a failure is left to the caller. */
    method Send(m: Message, c: Client, env: Env) returns (ok: bool)
      modifies this`sent
      ensures ok == env.delivers(m, c)
      ensures ok ==> sent == [(m, c)] + old(sent)
      ensures !ok ==> sent == old(sent)
    {
      ok := env.delivers(m, c);
      if ok {
        sent := [(m, c)] + sent;
      }
    }

    /** The loops over the client store that cancel and stop: a failure is only warned about. */
    method TellEach(m: Message, env: Env) returns (ghost told: seq<Client>)
      modifies this`sent
      ensures Lists(told, Reached(View(), m, env)) && sent == Each(m, told) + old(sent)
    {
      ghost var reached := Reached(View(), m, env);
      told := [];
      var todo := clients;
      while todo != {}
        invariant todo <= clients && Lists(told, reached - todo)
        invariant sent == Each(m, told) + old(sent)
        decreases todo
      {
        var c :| c in todo;
        ListNext(told, reached, todo, c);
        EachNext(m, c, told);
        Regroup([(m, c)], Each(m, told), old(sent));
        var ok := Send(m, c, env);
        if ok {
          told := [c] + told;
        }
        todo := todo - {c};
      }
      assert reached - todo == reached;
    }

    /** Sending one kind of message to every client; those it reaches join `query_clients`. */
    method SendToAll(m: Message, env: Env) returns (ghost reached: set<Client>, ghost told: seq<Client>)
      modifies this`queryClients, this`sent
      ensures reached == Reached(View(), m, env)
      ensures multiset(told) == multiset(reached) && sent == Each(m, told) + old(sent)
      ensures View() == old(View()).(queryClients := old(View()).queryClients + multiset(reached))
    {
      ghost var s := View();
      reached := Reached(s, m, env);
      told := SendToEach(m, reached, env);
      ListedMultiset(told, reached);
      assert View() == s.(queryClients := multiset(queryClients));
      assert multiset(queryClients) == s.queryClients + multiset(reached);
    }

    /** A message to a client, from which a reply is expected if it got through. */
    method SendAndExpect(m: Message, c: Client, env: Env) returns (ok: bool)
      modifies this`queryClients, this`sent
      ensures ok == env.delivers(m, c)
      ensures ok ==> sent == [(m, c)] + old(sent) && queryClients == [c] + old(queryClients)
      ensures !ok ==> sent == old(sent) && queryClients == old(queryClients)
    {
      ok := Send(m, c, env);
      if ok {
        queryClients := [c] + queryClients;
      }
    }

    method SendToEach(m: Message, ghost reached: set<Client>, env: Env) returns (ghost told: seq<Client>)
      requires forall c :: c in reached <==> c in clients && env.delivers(m, c)
      modifies this`queryClients, this`sent
      ensures Lists(told, reached) && queryClients == told + old(queryClients)
      ensures sent == Each(m, told) + old(sent)
    {
      told := [];
      ghost var queryClients0, sent0 := queryClients, sent;
      assert [] + queryClients0 == queryClients0 && [] + sent0 == sent0;
      var todo := clients;
      while todo != {}
        invariant todo <= clients && Lists(told, reached - todo)
        invariant queryClients == told + queryClients0 && sent == Each(m, told) + sent0
        decreases todo
      {
        var c :| c in todo;
        ListNext(told, reached, todo, c);
        EachNext(m, c, told);
        Regroup([(m, c)], Each(m, told), sent0);
        Regroup([c], told, queryClients0);
        var ok := SendAndExpect(m, c, env);
        if ok {
          told := [c] + told;
        }
        todo := todo - {c};
      }
      assert reached - todo == reached;
    }

    method BeginQuery(env: Env)
      requires Logged()
      modifies this`queryClients, this`sent, this`queryTimer, this`history
      ensures Logged()
      ensures View() == DoPhaseQueryEndSession(old(View()), env)
    {
      ghost var reached, told := SendToAll(QueryMessage, env);
      QueryLogged(old(sent), TrafficOf(history), told, reached);
      Record(history.Queried(reached));
      SetQueryTimer(true);
    }

    method BeginEndSession(env: Env)
      requires Logged()
      modifies this
      ensures Logged()
      ensures View() == DoPhaseEndSession(old(View()), env)
      decreases EXIT - phase, 1
    {
      SetPhaseTimer(false);
      if clients != {} {
        SetPhaseTimer(true);
        SendEndSession(env);
      } else {
        End(NoClients, env);
      }
    }

    method SendEndSession(env: Env)
      requires Logged()
      modifies this`queryClients, this`sent, this`history
      ensures Logged()
      ensures View() == AddRound(old(View()), multiset(Reached(old(View()), EndMessage, env)), false, env)
    {
      ghost var s := View();
      ghost var reached, told := SendToAll(EndMessage, env);
      RecordRound(AddRound(s, multiset(reached), false, env).history, told, old(sent));
    }

    /** The loop over `next_query_clients`, in their order and with repetitions. */
    method SendLast(env: Env) returns (ghost told: seq<Client>)
      modifies this`queryClients, this`sent
      ensures told == Reversed(Delivered(nextQueryClients, LastMessage, env))
      ensures queryClients == told + old(queryClients) && sent == Each(LastMessage, told) + old(sent)
    {
      told := [];
      var i := 0;
      while i < |nextQueryClients|
        invariant 0 <= i <= |nextQueryClients|
        invariant told == Reversed(Delivered(nextQueryClients[..i], LastMessage, env))
        invariant queryClients == told + old(queryClients) && sent == Each(LastMessage, told) + old(sent)
      {
        var c := nextQueryClients[i];
        ghost var reached := Delivered(nextQueryClients[..i], LastMessage, env);
        DeliveredNext(nextQueryClients, i, LastMessage, env);
        assert reached + [] == reached;
        var ok := SendAndExpect(LastMessage, c, env);
        if ok {
          ReversedNext(reached, c);
          EachNext(LastMessage, c, told);
          Regroup([(LastMessage, c)], Each(LastMessage, told), old(sent));
          Regroup([c], told, old(queryClients));
          told := [c] + told;
        }
        i := i + 1;
      }
      assert nextQueryClients[..i] == nextQueryClients;
    }

    method DropPostponed()
      modifies this`nextQueryClients
      ensures View() == old(View()).(nextQueryClients := [])
    {
      nextQueryClients := [];
    }

    method SendPostponed(env: Env) returns (ghost reached: multiset<Client>, ghost told: seq<Client>)
      modifies this`queryClients, this`sent
      ensures reached == multiset(Delivered(nextQueryClients, LastMessage, env))
      ensures multiset(told) == reached && sent == Each(LastMessage, told) + old(sent)
      ensures View() == old(View()).(queryClients := old(View()).queryClients + reached)
    {
      ghost var s := View();
      told := SendLast(env);
      ReversedMultiset(Delivered(nextQueryClients, LastMessage, env));
      reached := multiset(told);
      assert View() == s.(queryClients := multiset(queryClients));
      assert multiset(queryClients) == s.queryClients + reached;
    }

    method SendLastRound(env: Env)
      requires Logged()
      modifies this`queryClients, this`sent, this`nextQueryClients, this`history
      ensures Logged()
      ensures var s := old(View());
              View() == AddRound(s, multiset(Delivered(s.nextQueryClients, LastMessage, env)), true, env).(
                          nextQueryClients := [])
    {
      ghost var s := View();
      ghost var reached, told := SendPostponed(env);
      RecordRound(AddRound(s, reached, true, env).history, told, old(sent));
      assert View() == AddRound(s, reached, true, env);
      DropPostponed();
    }

    method EndSessionPart2(env: Env)
      requires Logged()
      modifies this
      ensures Logged()
      ensures View() == DoPhaseEndSessionPart2(old(View()), env)
      decreases EXIT - phase, 1
    {
      if nextQueryClients != [] {
        SendLastRound(env);
      } else {
        End(RepliesIn, env);
      }
    }

    method BeginExit(env: Env)
      requires Logged()
      modifies this
      ensures Logged()
      ensures View() == DoPhaseExit(old(View()), env)
      decreases EXIT - phase, 1
    {
      ghost var told := StopClients(env);
      End(Exiting, env);
    }

    method StopClients(env: Env) returns (ghost told: seq<Client>)
      requires Logged()
      modifies this`sent, this`history
      ensures Logged()
      ensures sent == Each(StopMessage, told) + old(sent) && Lists(told, Reached(old(View()), StopMessage, env))
      ensures var s := old(View());
              View() == s.(history := s.history.(stopped := s.history.stopped + [Reached(s, StopMessage, env)]))
    {
      told := TellEach(StopMessage, env);
      ListedElements(told, Reached(View(), StopMessage, env));
      ListedMultiset(told, Elements(told));
      StopLogged(old(sent), TrafficOf(history), told, Elements(told));
      Record(history.(stopped := history.stopped + [Elements(told)]));
    }

    // ---------- Cancelling, and the inhibit dialog ----------

    method SetLogout(mode: LogoutMode, t: LogoutType)
      modifies this`logoutMode, this`logoutType
      ensures View() == old(View()).(logoutMode := mode, logoutType := t)
    {
      logoutMode, logoutType := mode, t;
    }

    method SetInhibitors(m: map<nat, Inhibitor>)
      modifies this`inhibitors
      ensures View() == old(View()).(inhibitors := m)
    {
      inhibitors := m;
    }

    /** The dialog goes before the JIT inhibitors do, so that it cannot accept itself. */
    method DropJitInhibitors()
      modifies this`dialog, this`inhibitors, this`idleEnabled
      ensures var s := old(View());
              View() == UpdateIdle(s.(dialog := None, inhibitors := s.inhibitors - Jit(s.inhibitors)))
    {
      SetDialog(None);
      SetInhibitors(inhibitors - Jit(inhibitors));
      UpdateIdleWatch();
    }

    method BackToRunning(env: Env)
      requires Logged()
      modifies this`dialog, this`inhibitors, this`idleEnabled, this`sent, this`history, this`phase
      modifies this`logoutMode, this`logoutType
      ensures Logged()
      ensures View() == ReplyProofs.Cancelled(old(View()), env)
    {
      DropJitInhibitors();
      ghost var told := CancelClients(env);
      SetRunning();
    }

    method SetRunning()
      modifies this`phase, this`logoutMode, this`logoutType
      ensures View() == old(View()).(phase := RUNNING, logoutMode := Normal, logoutType := NoLogout)
    {
      SetPhase(RUNNING);
      SetLogout(Normal, NoLogout);
    }

    method CancelClients(env: Env) returns (ghost told: seq<Client>)
      requires Logged()
      modifies this`sent, this`history
      ensures Logged()
      ensures sent == Each(CancelMessage, told) + old(sent) && Lists(told, Reached(old(View()), CancelMessage, env))
      ensures var s := old(View());
              var cancelled := s.history.cancelled + [Reached(s, CancelMessage, env)];
              View() == s.(history := s.history.(cancelled := cancelled, quit := None))
    {
      told := TellEach(CancelMessage, env);
      ListedElements(told, Reached(View(), CancelMessage, env));
      ListedMultiset(told, Elements(told));
      CancelLogged(old(sent), TrafficOf(history), told, Elements(told));
      Record(history.(cancelled := history.cancelled + [Elements(told)], quit := None));
    }

    method CancelLogout(env: Env)
      requires Logged()
      modifies this
      ensures Logged()
      ensures View() == CancelEndSession(old(View()), env)
    {
      if phase >= QUERY_END_SESSION {
        BackToRunning(env);
        Begin(env);
      }
    }

    method DoPowerAction(action: LogoutAction, env: Env)
      requires Logged()
      modifies this`history
      ensures Logged()
      ensures View() == PowerAction(old(View()), action, env)
    {
      if !(action.SwitchUserAction? && env.switchLockedDown) {
        Note(history.(power := history.power + [action]));
      }
    }

    method SetMode(mode: LogoutMode)
      modifies this`logoutMode
      ensures View() == old(View()).(logoutMode := mode)
    {
      logoutMode := mode;
    }

    method DoDialogAction(action: LogoutAction, env: Env)
      requires Logged()
      modifies this
      ensures Logged()
      ensures View() == DoInhibitDialogAction(old(View()), action, env)
    {
      if action.EndsSession() {
        SetMode(Force);
        End(DialogAccepted, env);
      } else {
        DoPowerAction(action, env);
      }
    }

    method CloseDialog()
      requires dialog.Some?
      modifies this`dialog
      ensures View() == DialogClosed(old(View()))
    {
      dialog := None;
    }

    method DialogResponse(accept: bool, env: Env)
      requires Logged()
      requires dialog.Some?
      modifies this
      ensures Logged()
      ensures View() == InhibitDialogResponse(old(View()), accept, env)
    {
      var action := dialog.value.action;
      CloseDialog();
      if accept {
        DoDialogAction(action, env);
      } else if action.EndsSession() {
        CancelLogout(env);
      }
    }

    /** `csm_store_foreach_remove` on the inhibitors, with the "removed" handlers of the manager and the dialog. */
    method RemoveFromStore(gone: set<nat>, env: Env)
      requires Logged()
      modifies this
      ensures Logged()
      ensures View() == RemoveInhibitors(old(View()), gone, env)
    {
      if inhibitors.Keys !! gone {
        return;
      }
      TakeOut(gone);
      if dialog.Some? {
        DropRows(gone);
        if dialog.value.rows == {} {
          DialogResponse(true, env);
        }
      }
    }

    method TakeOut(gone: set<nat>)
      modifies this`inhibitors, this`idleEnabled
      ensures var s := old(View()); View() == UpdateIdle(s.(inhibitors := s.inhibitors - gone))
    {
      SetInhibitors(inhibitors - gone);
      UpdateIdleWatch();
    }

    method DropRows(gone: set<nat>)
      requires dialog.Some?
      modifies this`dialog
      ensures var s := old(View());
              View() == s.(dialog := Some(s.dialog.value.(rows := s.dialog.value.rows - gone)))
    {
      SetDialog(Some(dialog.value.(rows := dialog.value.rows - gone)));
    }

    method ShowDialog(action: LogoutAction)
      modifies this`dialog
      ensures View() == ShowInhibitDialog(old(View()), action)
    {
      if dialog.None? {
        SetDialog(Some(Dialog(action, inhibitors.Keys)));
      }
    }

    method CompleteQuery(env: Env)
      requires Logged()
      modifies this
      ensures Logged()
      ensures View() == QueryEndSessionComplete(old(View()), env)
    {
      SetQueryTimer(false);
      var inhibited := HasInhibitor(LOGOUT_FLAG);
      if !inhibited {
        End(QueryComplete, env);
      } else {
        ShowDialog(ActionFor(logoutType));
      }
    }

    // ---------- Replies and disconnections ----------

    method TakeOffList(c: Client, ok: bool, last: bool)
      requires Logged()
      modifies this`queryClients, this`history
      ensures Logged()
      ensures View() == ReplyProofs.Noted(old(View()), c, ok, last)
    {
      RemoveQueryClient(c);
      Note(history.Answered(c, ok, last));
    }

    method RemoveQueryClient(c: Client)
      modifies this`queryClients
      ensures View() == old(View()).(queryClients := old(View()).queryClients - multiset{c})
    {
      queryClients := RemoveFirst(queryClients, c);
    }

    method ReceiveReply(c: Client, ok: bool, last: bool, cookie: nat, env: Env)
      requires Logged()
      modifies this
      ensures Logged()
      ensures View() == TakeReply(old(View()), c, ok, last, cookie, env)
    {
      TakeOffList(c, ok, last);
      if !ok && logoutMode != Force {
        AddToStore(JitInhibitor(c, cookie));
      } else {
        RemoveFromStore(OwnedBy(inhibitors, c), env);
      }
    }

    method PostponeClient(c: Client)
      modifies this`nextQueryClients
      ensures View() == old(View()).(nextQueryClients := [c] + old(nextQueryClients))
    {
      nextQueryClients := [c] + nextQueryClients;
    }

    method EndIfAllReplied(env: Env)
      requires Logged()
      modifies this
      ensures Logged()
      ensures View() == AllReplied(old(View()), env)
    {
      var inhibited := HasInhibitor(LOGOUT_FLAG);
      if queryClients != [] {
        assert queryClients[0] in multiset(queryClients);
      } else if !inhibited {
        if nextQueryClients != [] {
          EndSessionPart2(env);
        } else {
          End(RepliesIn, env);
        }
      }
    }

    method ProceedAfterReply(c: Client, last: bool, env: Env)
      requires Logged()
      modifies this
      ensures Logged()
      ensures View() == AfterReply(old(View()), c, last, env)
    {
      if phase == QUERY_END_SESSION {
        if queryClients == [] {
          CompleteQuery(env);
        } else {
          assert queryClients[0] in multiset(queryClients);
        }
      } else if phase == END_SESSION {
        if last {
          PostponeClient(c);
        }
        EndIfAllReplied(env);
      }
    }

    method OnResponse(c: Client, ok: bool, last: bool, cancel: bool, cookie: nat, env: Env)
      requires Logged()
      modifies this
      ensures Logged()
      ensures View() == HandleResponse(old(View()), c, ok, last, cancel, cookie, env)
    {
      if phase < QUERY_END_SESSION {
        return;
      }
      if cancel {
        CancelLogout(env);
      } else {
        ReceiveReply(c, ok, last, cookie, env);
        ProceedAfterReply(c, last, env);
      }
    }

    method Disconnect(c: Client, env: Env)
      requires Logged()
      modifies this
      ensures Logged()
      ensures View() == DisconnectClient(old(View()), c, env)
    {
      ghost var s := View();
      Note(history.Rule(c, Gone));
      RemoveFromStore(OwnedBy(inhibitors, c), env);
      if phase == QUERY_END_SESSION {
        OnResponse(c, true, false, false, 0, env);
      }
    }

    method SetClients(cs: set<Client>)
      modifies this`clients
      ensures View() == old(View()).(clients := cs)
    {
      clients := cs;
    }

    method EndIfDeserted(env: Env)
      requires Logged()
      modifies this
      ensures Logged()
      ensures View() == ExitIfDeserted(old(View()), env)
    {
      if phase >= QUERY_END_SESSION && clients == {} {
        End(LastClientLeft, env);
      }
    }

    method DisconnectEach(order: seq<Client>, env: Env)
      requires Logged()
      modifies this
      ensures Logged()
      ensures View() == DisconnectAll(old(View()), order, env)
    {
      ghost var s := View();
      var i := 0;
      while i < |order|
        invariant 0 <= i <= |order|
        invariant Logged() && DisconnectAll(View(), order[i..], env) == DisconnectAll(s, order, env)
      {
        Disconnect(order[i], env);
        SetClients(clients - {order[i]});
        assert order[i..][1..] == order[i + 1..];
        i := i + 1;
      }
    }

    // ---------- Event handlers ----------

    method OnStart(env: Env)
      requires Valid() && phase == STARTUP
      modifies this
      ensures View() == Start(old(View()), env) && Valid()
    {
      ghost var s := View();
      SetPhase(INITIALIZATION);
      Begin(env);
      StartInv(s, env);
    }

    method RemovePending(a: App)
      modifies this`pendingApps
      ensures View() == old(View()).(pendingApps := old(View()).pendingApps - multiset{a})
    {
      pendingApps := RemoveFirst(pendingApps, a);
    }

    method DisconnectHandler(a: App)
      modifies this`handlers
      ensures handlers == old(handlers) - {a}
    {
      handlers := handlers - {a};
    }

    method Unwait(a: App)
      requires Logged()
      modifies this`pendingApps, this`handlers, this`history
      ensures Logged()
      ensures View() == Signalled(old(View()), a)
    {
      Disregard(a);
      RemovePending(a);
    }

    /** The app's signals no longer reach `app_registered`. */
    method Disregard(a: App)
      requires Logged()
      modifies this`handlers, this`history
      ensures Logged()
      ensures var s := old(View());
              View() == s.(handlers := s.handlers - {a}, history := s.history.(waiting := s.history.waiting - {a}))
    {
      DisconnectHandler(a);
      Note(history.(waiting := history.waiting - {a}));
    }

    /** `app_registered`. */
    method AppRegistered(a: App, env: Env)
      requires Logged()
      requires a in handlers
      modifies this
      ensures Logged()
      ensures View() == AppSignal(old(View()), a, env)
    {
      Unwait(a);
      if pendingApps == [] {
        SetPhaseTimer(false);
        End(AppsReady, env);
      } else {
        assert pendingApps[0] in multiset(pendingApps);
      }
    }

    method OnAppSignal(a: App, env: Env)
      requires Valid()
      modifies this
      ensures View() == AppSignal(old(View()), a, env) && Valid()
    {
      ghost var s := View();
      if a in handlers {
        AppRegistered(a, env);
      } else {
        Note(history.(waiting := history.waiting - {a}));
      }
      AppSignalInv(s, a, env);
    }

    /** The startup half of `on_phase_timeout`: a loop over the pending apps disconnects their handlers. */
    method DisconnectPending()
      modifies this`handlers
      ensures handlers == old(handlers) - set a | a in pendingApps
    {
      var i := 0;
      while i < |pendingApps|
        invariant 0 <= i <= |pendingApps|
        invariant handlers == old(handlers) - set a | a in pendingApps[..i]
      {
        DisconnectHandler(pendingApps[i]);
        assert pendingApps[..i + 1] == pendingApps[..i] + [pendingApps[i]];
        i := i + 1;
      }
      assert pendingApps[..i] == pendingApps;
    }

    method TimeOut()
      requires Logged()
      modifies this`phaseTimer, this`handlers, this`history
      ensures Logged()
      ensures View() == TimedOut(old(View()))
    {
      SetPhaseTimer(false);
      if phase <= APPLICATION {
        DisconnectPending();
        ghost var late := set a | a in multiset(pendingApps);
        assert late == set a | a in pendingApps;
        Note(history.(waiting := history.waiting - late));
      }
    }

    method OnPhaseTimeout(env: Env)
      requires Valid() && phaseTimer
      modifies this
      ensures View() == PhaseTimeout(old(View()), env) && Valid()
    {
      ghost var s := View();
      TimeOut();
      End(PhaseTimedOut, env);
      PhaseTimeoutInv(s, env);
    }

    /** The loop of `_on_query_end_session_timeout` over `query_clients`. */
    method InhibitForEach(cookies: seq<nat>)
      requires |queryClients| <= |cookies|
      modifies this`inhibitors, this`nextInhibitor, this`dialog, this`idleEnabled
      ensures View() == InhibitForSilent(old(View()), queryClients, cookies)
    {
      ghost var s := View();
      var i := 0;
      while i < |queryClients|
        invariant 0 <= i <= |queryClients|
        invariant InhibitForSilent(View(), queryClients[i..], cookies[i..])
               == InhibitForSilent(s, queryClients, cookies)
      {
        AddToStore(JitInhibitor(queryClients[i], cookies[i]));
        assert queryClients[i..][1..] == queryClients[i + 1..];
        assert cookies[i..][1..] == cookies[i + 1..];
        i := i + 1;
      }
    }

    method DropQueryClients()
      modifies this`queryClients
      ensures View() == old(View()).(queryClients := multiset{})
    {
      queryClients := [];
    }

    /** The clients that stayed silent are inhibited for, unless the logout is forced, and forgotten. */
    method GiveUpOnSilent(cookies: seq<nat>)
      requires |queryClients| <= |cookies|
      modifies this`queryTimer, this`queryClients, this`inhibitors, this`nextInhibitor, this`dialog, this`idleEnabled
      ensures View() == SilentGivenUp(old(View()), old(queryClients), cookies)
    {
      SetQueryTimer(false);
      if logoutMode != Force {
        InhibitForEach(cookies);
      }
      DropQueryClients();
    }

    method QueryTimedOut(cookies: seq<nat>, env: Env)
      requires Logged()
      requires |queryClients| <= |cookies|
      modifies this
      ensures Logged()
      ensures View() == QueryTimeout(old(View()), old(queryClients), cookies, env)
    {
      GiveUpOnSilent(cookies);
      CompleteQuery(env);
    }

    method OnQueryTimeout(cookies: seq<nat>, env: Env)
      requires Valid() && queryTimer && CookiesFor(View(), queryClients, cookies)
      modifies this
      ensures View() == QueryTimeout(old(View()), old(queryClients), cookies, env) && Valid()
    {
      ghost var s, silent := View(), queryClients;
      QueryTimedOut(cookies, env);
      QueryTimeoutInv(s, silent, cookies, env);
    }

    method OnClientResponse(c: Client, ok: bool, last: bool, cancel: bool, cookie: nat, env: Env)
      requires Valid() && cookie !in Cookies(inhibitors)
      modifies this
      ensures View() == HandleResponse(old(View()), c, ok, last, cancel, cookie, env) && Valid()
    {
      ghost var s := View();
      OnResponse(c, ok, last, cancel, cookie, env);
      ReplyProofs.HandleResponseInv(s, c, ok, last, cancel, cookie, env);
    }

    method OnClientConnected(c: Client, env: Env)
      requires Valid()
      modifies this
      ensures View() == ClientConnected(old(View()), c) && Valid()
    {
      ghost var s := View();
      SetClients(clients + {c});
      ConnectedInv(s, c);
    }

    method OnClientDisconnected(c: Client, env: Env)
      requires Valid() && c in clients
      modifies this
      ensures View() == ClientDisconnected(old(View()), c, env) && Valid()
    {
      ghost var s := View();
      Disconnect(c, env);
      SetClients(clients - {c});
      EndIfDeserted(env);
      ClientDisconnectedInv(s, c, env);
    }

    method RemoveClients(order: seq<Client>, env: Env)
      requires Logged()
      modifies this
      ensures Logged()
      ensures View() == RemoveClientsForConnection(old(View()), order, env)
    {
      DisconnectEach(order, env);
      EndIfDeserted(env);
    }

    method OnBusNameLost(bus: string, order: seq<Client>, env: Env)
      requires Valid() && bus != "" && Traversal(order, OnBus(clients, Some(bus)))
      modifies this
      ensures View() == BusNameLost(old(View()), bus, order, env) && Valid()
    {
      ghost var s := View();
      Note(history.BusGone(bus));
      RemoveFromStore(FromBus(inhibitors, bus), env);
      RemoveClients(order, env);
      BusNameLostInv(s, bus, order, env);
    }

    method SetBusDisconnected()
      modifies this`busDisconnected
      ensures View() == old(View()).(busDisconnected := true)
    {
      busDisconnected := true;
    }

    method OnBusDisconnected(order: seq<Client>, env: Env)
      requires Valid() && Traversal(order, OnBus(clients, None))
      modifies this
      ensures View() == BusDisconnected(old(View()), order, env) && Valid()
    {
      ghost var s := View();
      SetBusDisconnected();
      RemoveClients(order, env);
      BusDisconnectedInv(s, order, env);
    }

    /** `csm_manager_inhibit`; the caller gets the cookie unless there is an error. */
    method TakeInhibitor(appId: string, reason: string, flags: nat, sender: string, cookie: nat)
      returns (error: Option<Error>)
      requires Logged()
      modifies this
      ensures Logged()
      ensures View() == Inhibit(old(View()), appId, reason, flags, sender, cookie)
      ensures error == InhibitError(old(View()), appId, reason, flags)
    {
      if logoutMode == Force || appId == "" || reason == "" || flags == 0 {
        error := Some(GeneralError);
      } else {
        error := None;
        AddToStore(Inhibitor(cookie, None, Some(sender), flags));
      }
    }

    method OnInhibit(appId: string, reason: string, flags: nat, sender: string, cookie: nat, env: Env)
      returns (error: Option<Error>)
      requires Valid() && cookie !in Cookies(inhibitors)
      modifies this
      ensures View() == Inhibit(old(View()), appId, reason, flags, sender, cookie) && Valid()
      ensures error == if old(logoutMode) == Force || appId == "" || reason == "" || flags == 0 then Some(GeneralError)
                       else None
      ensures error.Some? ==> View() == old(View())
    {
      ghost var s := View();
      error := TakeInhibitor(appId, reason, flags, sender, cookie);
      InhibitInv(s, appId, reason, flags, sender, cookie);
    }

    method FindCookie(cookie: nat) returns (found: Option<nat>)
      requires CookiesDistinct(inhibitors)
      ensures found == FindByCookie(inhibitors, cookie)
    {
      var todo := inhibitors.Keys;
      found := None;
      while todo != {} && found.None?
        invariant todo <= inhibitors.Keys
        invariant found.None? ==> forall i :: i in inhibitors.Keys - todo ==> inhibitors[i].cookie != cookie
        invariant found.Some? ==> found.value in inhibitors && inhibitors[found.value].cookie == cookie
        decreases todo
      {
        var i :| i in todo;
        todo := todo - {i};
        if inhibitors[i].cookie == cookie {
          found := Some(i);
        }
      }
    }

    /** `csm_manager_uninhibit`: an unknown cookie is an error. */
    method OnUninhibit(cookie: nat, env: Env) returns (error: Option<Error>)
      requires Valid()
      modifies this
      ensures View() == Uninhibit(old(View()), cookie, env) && Valid()
      ensures error == if forall i :: i in old(inhibitors) ==> old(inhibitors)[i].cookie != cookie
                       then Some(GeneralError) else None
      ensures error.Some? ==> View() == old(View())
    {
      ghost var s := View();
      var found := FindCookie(cookie);
      if found.None? {
        error := Some(GeneralError);
      } else {
        error := None;
        assert cookie in Cookies(inhibitors);
        Note(Waive(history, inhibitors[found.value]));
        RemoveFromStore({found.value}, env);
      }
      UninhibitInv(s, cookie, env);
    }

    method OnDialogAnswered(accept: bool, env: Env)
      requires Valid() && dialog.Some?
      modifies this
      ensures View() == InhibitDialogResponse(old(View()), accept, env) && Valid()
    {
      ghost var s := View();
      DialogResponse(accept, env);
      DialogAnsweredInv(s, accept, env);
    }

    // ---------- Requests ----------

    method SetType(t: LogoutType)
      modifies this`logoutType
      ensures View() == old(View()).(logoutType := t)
    {
      logoutType := t;
    }

    method RequestEnd(t: LogoutType, env: Env)
      requires Logged()
      modifies this
      ensures Logged()
      ensures View() == Request(old(View()), t, env)
    {
      Note(history.Asks(t, phase));
      SetType(t);
      End(Requested, env);
    }

    method SetConfirmation(up: bool)
      modifies this`confirmation
      ensures View() == old(View()).(confirmation := up)
    {
      confirmation := up;
    }

    method Confirm()
      modifies this`logoutMode, this`confirmation
      ensures View() == ShowConfirmation(old(View()))
    {
      if phase < QUERY_END_SESSION {
        SetMode(Normal);
        SetConfirmation(true);
      }
    }

    method TakeLogout(mode: Option<LogoutMode>, env: Env) returns (error: Option<Error>)
      requires Logged()
      modifies this
      ensures Logged()
      ensures View() == LogoutCall(old(View()), mode, env)
      ensures error == LogoutError(old(View()), mode, env)
    {
      if phase != RUNNING {
        error := Some(NotInRunning);
      } else if env.lockedDown {
        error := Some(LockedDown);
      } else if mode.None? {
        error := Some(InvalidOption);
      } else {
        error := None;
        if mode.value == Normal && env.logoutPrompt {
          Confirm();
        } else {
          SetMode(mode.value);
          RequestEnd(Logout, env);
        }
      }
    }

    method OnLogout(mode: Option<LogoutMode>, env: Env) returns (error: Option<Error>)
      requires Valid()
      modifies this
      ensures View() == LogoutCall(old(View()), mode, env) && Valid()
      ensures error == Some(NotInRunning) <==> old(phase) != RUNNING
      ensures error == Some(LockedDown) <==> old(phase) == RUNNING && env.lockedDown
      ensures error == Some(InvalidOption) <==> old(phase) == RUNNING && !env.lockedDown && mode == None
      ensures error != Some(GeneralError) && (error.Some? ==> View() == old(View()))
    {
      ghost var s := View();
      error := TakeLogout(mode, env);
      LogoutInv(s, mode, env);
    }

    method OnShutdown(env: Env) returns (error: Option<Error>)
      requires Valid()
      modifies this
      ensures View() == ShutdownCall(old(View()), env) && Valid()
      ensures error == Some(NotInRunning) <==> old(phase) != RUNNING
      ensures error == Some(LockedDown) <==> old(phase) == RUNNING && env.lockedDown
      ensures error == None <==> old(phase) == RUNNING && !env.lockedDown
      ensures error.Some? ==> View() == old(View())
    {
      ghost var s := View();
      if phase != RUNNING {
        error := Some(NotInRunning);
      } else if env.lockedDown {
        error := Some(LockedDown);
      } else {
        error := None;
        Confirm();
      }
      ShutdownInv(s, env);
    }

    method SetPrivileges(p: set<bool>)
      modifies this`privileges
      ensures View() == old(View()).(privileges := p)
    {
      privileges := p;
    }

    method AskForPower(reboot: bool, asked: bool, env: Env)
      requires Logged()
      modifies this
      ensures Logged()
      ensures View() == RequestPower(old(View()), reboot, asked, env)
    {
      if asked {
        SetPrivileges(privileges + {reboot});
      } else {
        RequestEnd(if reboot then RebootCdm else ShutdownCdm, env);
      }
    }

    method OnRequestPower(reboot: bool, asked: bool, env: Env) returns (error: Option<Error>)
      requires Valid()
      modifies this
      ensures View() == RequestPowerCall(old(View()), reboot, asked, env) && Valid()
      ensures error == (if old(phase) != RUNNING then Some(NotInRunning) else None)
      ensures error.Some? ==> View() == old(View())
    {
      ghost var s := View();
      if phase != RUNNING {
        error := Some(NotInRunning);
      } else {
        error := None;
        AskForPower(reboot, asked, env);
      }
      RequestPowerCallInv(s, reboot, asked, env);
    }

    method TakePrivileges(reboot: bool, success: bool, askLater: bool, env: Env)
      requires Logged()
      modifies this
      ensures Logged()
      ensures View() == PrivilegesCompleted(old(View()), reboot, success, askLater, env)
    {
      SetPrivileges(privileges - {reboot});
      if success {
        RequestEnd(if reboot then (if askLater then RebootInteract else Reboot)
                   else (if askLater then ShutdownInteract else Shutdown), env);
      }
    }

    method OnPrivileges(reboot: bool, success: bool, askLater: bool, env: Env)
      requires Valid() && reboot in privileges
      modifies this
      ensures View() == PrivilegesCompleted(old(View()), reboot, success, askLater, env) && Valid()
    {
      ghost var s := View();
      TakePrivileges(reboot, success, askLater, env);
      PrivilegesInv(s, reboot, success, askLater, env);
    }

    method AskToSuspend(action: LogoutAction, env: Env)
      requires Logged()
      requires !action.EndsSession()
      modifies this
      ensures Logged()
      ensures View() == RequestSuspend(old(View()), action, env)
    {
      if action.SwitchUserAction? && env.switchLockedDown {
        return;
      }
      var inhibited := HasInhibitor(FlagFor(action));
      if !inhibited {
        DoPowerAction(action, env);
      } else {
        ShowDialog(action);
      }
    }

    method OnConfirmation(answer: Confirmation, asked: bool, env: Env)
      requires Valid() && confirmation && logoutMode == Normal
      modifies this
      ensures View() == ConfirmationAnswered(old(View()), answer, asked, env) && Valid()
    {
      ghost var s := View();
      ActOnConfirmation(answer, asked, env);
      ConfirmationInv(s, answer, asked, env);
    }

    method ActOnConfirmation(answer: Confirmation, asked: bool, env: Env)
      requires Logged()
      modifies this
      ensures Logged()
      ensures View() == ConfirmationAnswered(old(View()), answer, asked, env)
    {
      SetConfirmation(false);
      match answer
      case Declined =>
      case Confirmed(LogoutAction) =>
        SetMode(NoConfirmation);
        RequestEnd(Logout, env);
      case Confirmed(RebootAction) => AskForPower(true, asked, env);
      case Confirmed(ShutdownAction) => AskForPower(false, asked, env);
      case Confirmed(action) => AskToSuspend(action, env);
    }
  }
}
