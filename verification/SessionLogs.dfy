/**
 The history against two logs that only the calls themselves write: every call
 that starts an app, and every message that gets through. The logs are kept by
 the session manager object; here is what it means that the history is right
 about them, and what then follows.
 */
module SessionLogs {
  import opened SessionTypes
  import opened SessionSpec
  import opened SessionInvariant

  // ---------- What the history says ----------

  /** How many of the launches attempted the app. */
  function Starts(launches: seq<Launch>, a: App): (n: nat) {
    if launches == [] then 0
    else Starts(launches[..|launches| - 1], a) + (if a in launches[|launches| - 1].attempted then 1 else 0)
  }

  /** How many of the sets have the client. */
  function Batches(batches: seq<set<Client>>, c: Client): (n: nat) {
    if batches == [] then 0
    else Batches(batches[..|batches| - 1], c) + (if c in batches[|batches| - 1] then 1 else 0)
  }

  /** How many messages the last rounds, or the others, sent to the client. */
  function Rounds(rounds: seq<Round>, last: bool, c: Client): (n: nat) {
    if rounds == [] then 0
    else
      var round := rounds[|rounds| - 1];
      Rounds(rounds[..|rounds| - 1], last, c) + (if round.last == last then round.to[c] else 0)
  }

  /** The part of the history that is about messages. */
  datatype Traffic =
    Traffic(queries: seq<set<Client>>, rounds: seq<Round>, cancelled: seq<set<Client>>, stopped: seq<set<Client>>)

  function TrafficOf(h: History): (t: Traffic) {
    Traffic(h.queries, h.rounds, h.cancelled, h.stopped)
  }

  function Sends(t: Traffic, m: Message, c: Client): (n: nat) {
    match m
    case QueryMessage => Batches(t.queries, c)
    case EndMessage => Rounds(t.rounds, false, c)
    case LastMessage => Rounds(t.rounds, true, c)
    case CancelMessage => Batches(t.cancelled, c)
    case StopMessage => Batches(t.stopped, c)
  }

  // ---------- The history is right ----------

  ghost predicate StartsLogged(attempts: seq<App>, launches: seq<Launch>) {
    forall a :: multiset(attempts)[a] == Starts(launches, a)
  }

  ghost predicate SendsLogged(sent: seq<(Message, Client)>, t: Traffic) {
    forall m, c :: multiset(sent)[(m, c)] == Sends(t, m, c)
  }

  lemma NothingLogged()
    ensures StartsLogged([], []) && SendsLogged([], TrafficOf(EMPTY_HISTORY))
  {
  }

  /** The same message to each of the clients. */
  function Each(m: Message, cs: seq<Client>): (r: seq<(Message, Client)>) {
    if cs == [] then [] else [(m, cs[0])] + Each(m, cs[1..])
  }

  lemma EachNext(m: Message, c: Client, cs: seq<Client>)
    ensures Each(m, [c] + cs) == [(m, c)] + Each(m, cs)
  {
    assert ([c] + cs)[1..] == cs;
  }

  lemma {:induction false} EachCounts(m: Message, cs: seq<Client>, n: Message, c: Client)
    ensures multiset(Each(m, cs))[(n, c)] == if n == m then multiset(cs)[c] else 0
  {
    if cs != [] {
      EachCounts(m, cs[1..], n, c);
      assert cs == [cs[0]] + cs[1..];
    }
  }

  lemma LaunchLogged(attempts: seq<App>, launches: seq<Launch>, tried: seq<App>, launch: Launch)
    requires StartsLogged(attempts, launches) && multiset(tried) == multiset(launch.attempted)
    ensures StartsLogged(tried + attempts, launches + [launch])
  {
    assert (launches + [launch])[..|launches|] == launches;
    forall a
      ensures multiset(tried + attempts)[a] == Starts(launches + [launch], a)
    {
      assert multiset(tried + attempts)[a] == multiset(tried)[a] + multiset(attempts)[a];
    }
  }

  lemma EachLogged(sent: seq<(Message, Client)>, m: Message, told: seq<Client>, n: Message, c: Client)
    ensures multiset(Each(m, told) + sent)[(n, c)]
         == multiset(sent)[(n, c)] + (if n == m then multiset(told)[c] else 0)
  {
    EachCounts(m, told, n, c);
  }

  lemma BatchesNext(batches: seq<set<Client>>, to: set<Client>, c: Client)
    ensures Batches(batches + [to], c) == Batches(batches, c) + multiset(to)[c]
  {
    assert (batches + [to])[..|batches|] == batches;
  }

  lemma RoundsNext(rounds: seq<Round>, round: Round, last: bool, c: Client)
    ensures Rounds(rounds + [round], last, c)
         == Rounds(rounds, last, c) + (if round.last == last then round.to[c] else 0)
  {
    assert (rounds + [round])[..|rounds|] == rounds;
  }

  lemma QueryLogged(sent: seq<(Message, Client)>, t: Traffic, told: seq<Client>, to: set<Client>)
    requires SendsLogged(sent, t) && multiset(told) == multiset(to)
    ensures SendsLogged(Each(QueryMessage, told) + sent, t.(queries := t.queries + [to]))
  {
    forall n, c
      ensures multiset(Each(QueryMessage, told) + sent)[(n, c)] == Sends(t.(queries := t.queries + [to]), n, c)
    {
      EachLogged(sent, QueryMessage, told, n, c);
      BatchesNext(t.queries, to, c);
    }
  }

  lemma RoundLogged(sent: seq<(Message, Client)>, t: Traffic, told: seq<Client>, round: Round)
    requires SendsLogged(sent, t) && multiset(told) == round.to
    ensures SendsLogged(Each(if round.last then LastMessage else EndMessage, told) + sent,
                        t.(rounds := t.rounds + [round]))
  {
    var m := if round.last then LastMessage else EndMessage;
    forall n, c
      ensures multiset(Each(m, told) + sent)[(n, c)] == Sends(t.(rounds := t.rounds + [round]), n, c)
    {
      EachLogged(sent, m, told, n, c);
      RoundsNext(t.rounds, round, n == LastMessage, c);
    }
  }

  lemma CancelLogged(sent: seq<(Message, Client)>, t: Traffic, told: seq<Client>, to: set<Client>)
    requires SendsLogged(sent, t) && multiset(told) == multiset(to)
    ensures SendsLogged(Each(CancelMessage, told) + sent, t.(cancelled := t.cancelled + [to]))
  {
    forall n, c
      ensures multiset(Each(CancelMessage, told) + sent)[(n, c)] == Sends(t.(cancelled := t.cancelled + [to]), n, c)
    {
      EachLogged(sent, CancelMessage, told, n, c);
      BatchesNext(t.cancelled, to, c);
    }
  }

  lemma StopLogged(sent: seq<(Message, Client)>, t: Traffic, told: seq<Client>, to: set<Client>)
    requires SendsLogged(sent, t) && multiset(told) == multiset(to)
    ensures SendsLogged(Each(StopMessage, told) + sent, t.(stopped := t.stopped + [to]))
  {
    forall n, c
      ensures multiset(Each(StopMessage, told) + sent)[(n, c)] == Sends(t.(stopped := t.stopped + [to]), n, c)
    {
      EachLogged(sent, StopMessage, told, n, c);
      BatchesNext(t.stopped, to, c);
    }
  }

  // ---------- What follows ----------

  /** Enabled, undelayed, and of one of the first `n` phases that launch anything. */
  predicate DueBy(apps: map<App, AppInfo>, a: App, n: nat) {
    && a in apps && INITIALIZATION <= apps[a].phase <= n
    && !apps[a].disabled && !apps[a].conditionallyDisabled && apps[a].delay <= 0
  }

  lemma {:induction false} StartsUpTo(launches: seq<Launch>, apps: map<App, AppInfo>, a: App)
    requires |launches| <= APPLICATION
    requires forall k :: 0 <= k < |launches| ==> launches[k].attempted == EligibleApps(apps, k + 1)
    ensures Starts(launches, a) == if DueBy(apps, a, |launches|) then 1 else 0
  {
    if launches != [] {
      StartsUpTo(launches[..|launches| - 1], apps, a);
    }
  }

  /** Of an object that keeps the invariant and whose history is right: every app that was due has been started
      exactly once since the object was created, and no other app at all. */
  lemma StartedExactlyOnce(s: Session, attempts: seq<App>, a: App)
    requires Inv(s) && StartsLogged(attempts, s.history.launches)
    ensures multiset(attempts)[a] == if DueBy(s.apps, a, LaunchedBy(s.phase)) then 1 else 0
  {
    StartsUpTo(s.history.launches, s.apps, a);
  }
}
