/**
 How clients get into the client store and obtain a startup id, over D-Bus and
 over XSMP, and why no two stored clients share one.
 */
module Registration {
  import opened SessionTypes

  /** A startup id; the empty one is no id at all. */
  datatype Sid = Sid(text: string) {
    predicate Empty() {
      text == ""
    }
  }

  const NO_ID := Sid("")

  /** The client store: object path, by number, to startup id. */
  type Clients = map<nat, Sid>

  /** No two stored clients share an id. */
  ghost predicate Distinct(clients: Clients) {
    forall a, b :: a in clients && b in clients && clients[a] == clients[b] && !clients[a].Empty() ==> a == b
  }

  predicate Holds(clients: Clients, id: Sid) {
    !id.Empty() && exists c :: c in clients && clients[c] == id
  }

  lemma HoldsValue(clients: Clients, id: Sid)
    ensures Holds(clients, id) <==> id.text != "" && id in clients.Values
  {
  }

  datatype Refusal = ShuttingDown | AlreadyRegistered | NotCreated | UnknownId

  datatype Outcome = Accepted(id: Sid) | Rejected(why: Refusal)

  /** Where `find_app_for_startup_id` looks: the pending apps before APPLICATION, afterwards all of them. */
  predicate AppFound(phase: Phase, pending: set<Sid>, known: set<Sid>, id: Sid) {
    if phase < APPLICATION then id in pending else id in known
  }

  // ---------- The three ways in ----------

  /** A client that connects over XSMP is stored at once, without an id. */
  function XsmpConnected(clients: Clients, c: nat): (r: Clients) {
    clients[c := NO_ID]
  }

  /** `on_xsmp_client_register_request`. A former id is accepted only if an app of the session has it. */
  function XsmpAnswer(clients: Clients, phase: Phase, previous: Sid, generated: Sid, pending: set<Sid>, known: set<Sid>)
    : (r: Outcome)
  {
    if phase >= QUERY_END_SESSION then Rejected(ShuttingDown)
    else if previous.Empty() then Accepted(generated)
    else if Holds(clients, previous) then Rejected(AlreadyRegistered)
    else if AppFound(phase, pending, known, previous) then Accepted(previous)
    else Rejected(UnknownId)
  }

  /** `csm_manager_register_client`; `created` says whether the client object could be made. */
  function DbusAnswer(clients: Clients, phase: Phase, startupId: Sid, generated: Sid, created: bool): (r: Outcome) {
    if phase >= QUERY_END_SESSION then Rejected(ShuttingDown)
    else if !startupId.Empty() && Holds(clients, startupId) then Rejected(AlreadyRegistered)
    else if !created then Rejected(NotCreated)
    else Accepted(if startupId.Empty() then generated else startupId)
  }

  function Enter(clients: Clients, c: nat, outcome: Outcome): (r: Clients) {
    if outcome.Accepted? then clients[c := outcome.id] else clients
  }

  datatype Arrival =
    | Connect(client: nat)
    | XsmpRegister(client: nat, previous: Sid, generated: Sid, pending: set<Sid>, known: set<Sid>)
    | DbusRegister(client: nat, startupId: Sid, generated: Sid, created: bool)
    | Leave(client: nat)

  /** New objects have new paths, XSMP registrations come from stored clients, and generated ids are fresh. */
  predicate Feasible(clients: Clients, e: Arrival) {
    match e
    case Connect(c) => c !in clients
    case XsmpRegister(c, _, generated, _, _) => c in clients && !generated.Empty() && !Holds(clients, generated)
    case DbusRegister(c, _, generated, _) => c !in clients && !generated.Empty() && !Holds(clients, generated)
    case Leave(_) => true
  }

  function Arrive(clients: Clients, phase: Phase, e: Arrival): (r: Clients) {
    match e
    case Connect(c) => XsmpConnected(clients, c)
    case XsmpRegister(c, previous, generated, pending, known) =>
      Enter(clients, c, XsmpAnswer(clients, phase, previous, generated, pending, known))
    case DbusRegister(c, startupId, generated, created) =>
      Enter(clients, c, DbusAnswer(clients, phase, startupId, generated, created))
    case Leave(c) => clients - {c}
  }

  // ---------- No shared ids ----------

  lemma EnterKeepsDistinct(clients: Clients, c: nat, id: Sid)
    requires Distinct(clients) && (id.Empty() || !Holds(clients, id))
    ensures Distinct(clients[c := id])
  {
    var r := clients[c := id];
    forall a, b | a in r && b in r && r[a] == r[b] && !r[a].Empty()
      ensures a == b
    {
      assert a != c ==> a in clients && clients[a] == r[a];
      assert b != c ==> b in clients && clients[b] == r[b];
    }
  }

  lemma ArriveKeepsDistinct(clients: Clients, phase: Phase, e: Arrival)
    requires Distinct(clients) && Feasible(clients, e)
    ensures Distinct(Arrive(clients, phase, e))
  {
    match e
    case Connect(c) => EnterKeepsDistinct(clients, c, NO_ID);
    case XsmpRegister(c, previous, generated, pending, known) =>
      var outcome := XsmpAnswer(clients, phase, previous, generated, pending, known);
      if outcome.Accepted? {
        EnterKeepsDistinct(clients, c, outcome.id);
      }
    case DbusRegister(c, startupId, generated, created) =>
      var outcome := DbusAnswer(clients, phase, startupId, generated, created);
      if outcome.Accepted? {
        EnterKeepsDistinct(clients, c, outcome.id);
      }
    case Leave(c) =>
  }

  ghost predicate Possible(clients: Clients, events: seq<(Phase, Arrival)>)
    decreases |events|
  {
    events == [] || (Feasible(clients, events[0].1) && Possible(Arrive(clients, events[0].0, events[0].1), events[1..]))
  }

  function ArriveAll(clients: Clients, events: seq<(Phase, Arrival)>): (r: Clients)
    decreases |events|
  {
    if events == [] then clients else ArriveAll(Arrive(clients, events[0].0, events[0].1), events[1..])
  }

  lemma {:induction false} RunKeepsDistinct(clients: Clients, events: seq<(Phase, Arrival)>)
    requires Distinct(clients) && Possible(clients, events)
    ensures Distinct(ArriveAll(clients, events))
    decreases |events|
  {
    if events != [] {
      ArriveKeepsDistinct(clients, events[0].0, events[0].1);
      RunKeepsDistinct(Arrive(clients, events[0].0, events[0].1), events[1..]);
    }
  }

  /** From an empty store, through any connections, registrations and departures in any phases, no two
      stored clients ever have the same id. */
  lemma NoSharedStartupId(events: seq<(Phase, Arrival)>, a: nat, b: nat)
    requires Possible(map[], events)
    requires var r := ArriveAll(map[], events); a in r && b in r && a != b
    ensures var r := ArriveAll(map[], events); r[a] == r[b] ==> r[a].Empty()
  {
    RunKeepsDistinct(map[], events);
  }

  // ---------- The objects ----------

  class Registry {
    var clients: Clients

    constructor ()
      ensures clients == map[] && Distinct(clients)
    {
      clients := map[];
    }

    /** `csm_store_find` with `_client_has_startup_id`. */
    method IsTaken(id: Sid) returns (taken: bool)
      ensures taken == Holds(clients, id)
    {
      var todo := clients.Keys;
      taken := false;
      while todo != {} && !taken
        invariant todo <= clients.Keys
        invariant forall c :: c in clients.Keys - todo ==> taken || clients[c].Empty() || clients[c] != id
        invariant taken ==> Holds(clients, id)
        decreases todo
      {
        var c :| c in todo;
        todo := todo - {c};
        taken := !clients[c].Empty() && clients[c] == id;
      }
    }

    method OnXsmpConnected(c: nat)
      requires Distinct(clients) && c !in clients
      modifies this
      ensures Distinct(clients) && clients == old(clients)[c := Sid("")]
      ensures forall phase :: clients == Arrive(old(clients), phase, Connect(c))
    {
      EnterKeepsDistinct(clients, c, NO_ID);
      clients := clients[c := NO_ID];
    }

    /** `on_xsmp_client_register_request`; the original's NULL answer is a refusal. */
    method RegisterRequest(phase: Phase, previous: Sid, generated: Sid, pending: set<Sid>, known: set<Sid>)
      returns (outcome: Outcome)
      ensures outcome == XsmpAnswer(clients, phase, previous, generated, pending, known)
      ensures outcome.Accepted? ==> outcome.id == if previous.text == "" then generated else previous
      ensures outcome == Rejected(ShuttingDown) <==> phase >= QUERY_END_SESSION
      ensures outcome == Rejected(AlreadyRegistered) <==>
        phase < QUERY_END_SESSION && previous.text != "" && previous in clients.Values
      ensures outcome == Rejected(UnknownId) <==>
        phase < QUERY_END_SESSION && previous.text != "" && previous !in clients.Values
        && previous !in (if phase < APPLICATION then pending else known)
      ensures outcome != Rejected(NotCreated)
    {
      HoldsValue(clients, previous);
      if phase >= QUERY_END_SESSION {
        return Rejected(ShuttingDown);
      }
      if previous.Empty() {
        return Accepted(generated);
      }
      var taken := IsTaken(previous);
      if taken {
        return Rejected(AlreadyRegistered);
      }
      if phase < APPLICATION {
        outcome := if previous in pending then Accepted(previous) else Rejected(UnknownId);
      } else {
        outcome := if previous in known then Accepted(previous) else Rejected(UnknownId);
      }
    }

    /** `register_client_callback`: a refused client stays in the store with the id it had. */
    method OnXsmpRegister(c: nat, phase: Phase, previous: Sid, generated: Sid, pending: set<Sid>, known: set<Sid>)
      returns (outcome: Outcome)
      requires Distinct(clients) && Feasible(clients, XsmpRegister(c, previous, generated, pending, known))
      modifies this
      ensures Distinct(clients)
      ensures clients == Arrive(old(clients), phase, XsmpRegister(c, previous, generated, pending, known))
      ensures outcome.Accepted? ==> outcome.id == (if previous.text == "" then generated else previous)
      ensures outcome.Accepted? ==> clients == old(clients)[c := outcome.id] && outcome.id.text != ""
      ensures outcome.Rejected? ==> clients == old(clients)
      ensures outcome.Rejected? <==>
        phase >= QUERY_END_SESSION
        || (previous.text != ""
            && (previous in old(clients).Values || previous !in (if phase < APPLICATION then pending else known)))
    {
      ArriveKeepsDistinct(clients, phase, XsmpRegister(c, previous, generated, pending, known));
      outcome := RegisterRequest(phase, previous, generated, pending, known);
      if outcome.Accepted? {
        clients := clients[c := outcome.id];
      }
    }

    /** `csm_manager_register_client`. */
    method OnDbusRegister(c: nat, phase: Phase, startupId: Sid, generated: Sid, created: bool)
      returns (outcome: Outcome)
      requires Distinct(clients) && Feasible(clients, DbusRegister(c, startupId, generated, created))
      modifies this
      ensures Distinct(clients)
      ensures clients == Arrive(old(clients), phase, DbusRegister(c, startupId, generated, created))
      ensures outcome.Accepted? ==> outcome.id == if startupId.text == "" then generated else startupId
      ensures outcome.Accepted? ==> clients == old(clients)[c := outcome.id] && outcome.id.text != ""
      ensures outcome.Rejected? ==> clients == old(clients)
      ensures outcome == Rejected(ShuttingDown) <==> phase >= QUERY_END_SESSION
      ensures outcome == Rejected(AlreadyRegistered) <==>
        phase < QUERY_END_SESSION && startupId.text != "" && startupId in old(clients).Values
      ensures outcome == Rejected(NotCreated) <==>
        phase < QUERY_END_SESSION && !(startupId.text != "" && startupId in old(clients).Values) && !created
      ensures outcome != Rejected(UnknownId)
    {
      ArriveKeepsDistinct(clients, phase, DbusRegister(c, startupId, generated, created));
      HoldsValue(clients, startupId);
      if phase >= QUERY_END_SESSION {
        return Rejected(ShuttingDown);
      }
      var newId := generated;
      if !startupId.Empty() {
        var taken := IsTaken(startupId);
        if taken {
          return Rejected(AlreadyRegistered);
        }
        newId := startupId;
      }
      if !created {
        return Rejected(NotCreated);
      }
      clients := clients[c := newId];
      outcome := Accepted(newId);
    }

    /** `csm_store_remove` after a disconnection. */
    method OnLeft(c: nat)
      requires Distinct(clients)
      modifies this
      ensures Distinct(clients) && clients == old(clients) - {c}
      ensures forall phase :: clients == Arrive(old(clients), phase, Leave(c))
    {
      clients := clients - {c};
    }
  }
}
