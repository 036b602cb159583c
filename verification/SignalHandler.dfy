/**
 The signal handler's three tables and the dispositions it leaves with the
 operating system: which callbacks a signal runs, and when a signal is caught.
 */
module SignalHandler {
  import opened Sequences
  import opened SessionTypes

  datatype Callback = Callback(signal: int, func: int, data: int)

  /** What the system does with a signal; Foreign is whatever another part of the process installed. */
  datatype Disposition = Default | Ours | Foreign(handler: int)

  /** `lookup`, `id_lookup`, `action_lookup`, `next_id`, and the dispositions. */
  datatype Tables = Tables(
    lookup: map<int, seq<nat>>,
    ids: map<nat, Callback>,
    actions: map<int, Disposition>,
    nextId: nat,
    os: map<int, Disposition>)
  {
    function ListOf(signal: int): (r: seq<nat>) {
      if signal in lookup then lookup[signal] else []
    }

    function Handles(signal: int): (d: Disposition) {
      if signal in os then os[signal] else Default
    }
  }

  function Initial(os: map<int, Disposition>): (t: Tables) {
    Tables(map[], map[], map[], 1, os)
  }

  // ---------- What the tables must agree on ----------

  /** Newest first, so no id is repeated. */
  ghost predicate Descending(ids: seq<nat>) {
    forall i, j :: 0 <= i < j < |ids| ==> ids[i] > ids[j]
  }

  ghost predicate ListedAt(t: Tables, s: int) {
    Descending(t.ListOf(s)) && forall id :: id in t.ListOf(s) ==> id in t.ids && t.ids[id].signal == s
  }

  ghost predicate Filed(t: Tables, id: nat)
    requires id in t.ids
  {
    id in t.ListOf(t.ids[id].signal) && id < t.nextId
  }

  /** An id is in a signal's list, once, exactly when its callback is for that signal. */
  ghost predicate Listed(t: Tables) {
    (forall s :: ListedAt(t, s)) && (forall id :: id in t.ids ==> Filed(t, id))
  }

  ghost predicate CaughtAt(t: Tables, s: int, before: Disposition) {
    if t.ListOf(s) != [] then s in t.actions && t.actions[s] == before && t.Handles(s) == Ours
    else s !in t.actions && t.Handles(s) == before
  }

  /** A signal is caught while it has a callback, and otherwise handled as it was in `original`. */
  ghost predicate Caught(t: Tables, original: map<int, Disposition>) {
    forall s :: CaughtAt(t, s, Initial(original).Handles(s))
  }

  ghost predicate Agree(t: Tables, original: map<int, Disposition>) {
    Listed(t) && Caught(t, original)
  }

  // ---------- What the operations do ----------

  function Catch(t: Tables, signal: int): (r: Tables) {
    t.(actions := t.actions[signal := t.Handles(signal)], os := t.os[signal := Ours])
  }

  /** Restoring from a missing entry is a `sigaction` call that does nothing. */
  function Uncatch(t: Tables, signal: int): (r: Tables) {
    if signal !in t.actions then t
    else t.(actions := t.actions - {signal}, os := t.os[signal := t.actions[signal]])
  }

  /** `cdm_signal_handler_add`; the new id is the old `nextId`. */
  function Added(t: Tables, c: Callback): (r: Tables) {
    var u := if c.signal in t.actions then t else Catch(t, c.signal);
    u.(ids := u.ids[t.nextId := c],
       lookup := u.lookup[c.signal := [t.nextId] + u.ListOf(c.signal)],
       nextId := t.nextId + 1)
  }

  /** `g_slist_remove_all`. */
  function Without(ids: seq<nat>, id: nat): (r: seq<nat>)
    ensures forall x :: x in r <==> x in ids && x != id
  {
    if ids == [] then [] else (if ids[0] == id then [] else [ids[0]]) + Without(ids[1..], id)
  }

  /** `cdm_signal_handler_remove_and_free_data`. */
  function Dropped(t: Tables, id: nat): (r: Tables)
    requires id in t.ids
  {
    var s := t.ids[id].signal;
    var list := Without(t.ListOf(s), id);
    var u := if list == [] then Uncatch(t, s) else t;
    u.(lookup := u.lookup[s := list], ids := u.ids - {id})
  }

  /** `find_callback_data_by_func`: the first id of the list with this function and data. */
  function FirstMatch(ids: seq<nat>, table: map<nat, Callback>, func: int, data: int): (r: Option<nat>)
    ensures r.Some? ==> r.value in ids && r.value in table
  {
    if ids == [] then None
    else if ids[0] in table && table[ids[0]].func == func && table[ids[0]].data == data then Some(ids[0])
    else FirstMatch(ids[1..], table, func, data)
  }

  // ---------- The tables stay in agreement ----------

  lemma {:induction false} WithoutDescends(ids: seq<nat>, id: nat)
    requires Descending(ids)
    ensures Descending(Without(ids, id))
  {
    if ids != [] {
      WithoutDescends(ids[1..], id);
      var r := Without(ids[1..], id);
      assert forall k :: 0 <= k < |r| ==> r[k] in ids[1..];
      assert forall x :: x in ids[1..] ==> ids[0] > x;
    }
  }

  /** What an operation on `signal` leaves alone. */
  ghost predicate SameElsewhere(t: Tables, r: Tables, signal: int) {
    forall s :: s != signal ==>
      r.ListOf(s) == t.ListOf(s) && r.Handles(s) == t.Handles(s)
      && (s in r.actions <==> s in t.actions) && (s in t.actions ==> r.actions[s] == t.actions[s])
  }

  lemma AddHere(t: Tables, c: Callback)
    ensures var r := Added(t, c);
      && SameElsewhere(t, r, c.signal)
      && r.ListOf(c.signal) == [t.nextId] + t.ListOf(c.signal)
      && r.ids == t.ids[t.nextId := c] && r.nextId == t.nextId + 1
  {
  }

  lemma AddCaughtHere(t: Tables, c: Callback, before: Disposition)
    requires CaughtAt(t, c.signal, before)
    ensures CaughtAt(Added(t, c), c.signal, before)
  {
  }

  lemma AddListed(t: Tables, c: Callback)
    requires Listed(t)
    ensures Listed(Added(t, c))
  {
    var r := Added(t, c);
    AddHere(t, c);
    forall s
      ensures ListedAt(r, s)
    {
      assert ListedAt(t, s);
      assert forall id :: id in t.ListOf(s) ==> Filed(t, id);
      if s == c.signal {
        PrependDescends(t.ListOf(s), t.nextId);
      }
    }
    forall id | id in r.ids
      ensures Filed(r, id)
    {
      if id == t.nextId {
        assert r.ListOf(c.signal)[0] == id;
      } else {
        assert Filed(t, id);
      }
    }
  }

  lemma PrependDescends(ids: seq<nat>, id: nat)
    requires Descending(ids) && forall x :: x in ids ==> x < id
    ensures Descending([id] + ids)
  {
    assert forall k :: 0 <= k < |ids| ==> ids[k] in ids;
  }

  lemma DropHere(t: Tables, id: nat)
    requires id in t.ids
    ensures var r, signal := Dropped(t, id), t.ids[id].signal;
      && SameElsewhere(t, r, signal)
      && r.ListOf(signal) == Without(t.ListOf(signal), id)
      && r.ids == t.ids - {id} && r.nextId == t.nextId
  {
  }

  lemma DropCaughtHere(t: Tables, id: nat, before: Disposition)
    requires id in t.ids && CaughtAt(t, t.ids[id].signal, before)
    ensures CaughtAt(Dropped(t, id), t.ids[id].signal, before)
  {
  }

  lemma DropListed(t: Tables, id: nat)
    requires Listed(t) && id in t.ids
    ensures Listed(Dropped(t, id))
  {
    var r, signal := Dropped(t, id), t.ids[id].signal;
    DropHere(t, id);
    forall s
      ensures ListedAt(r, s)
    {
      assert ListedAt(t, s);
      if s == signal {
        WithoutDescends(t.ListOf(s), id);
      }
    }
    forall x | x in r.ids
      ensures Filed(r, x)
    {
      assert Filed(t, x);
    }
  }

  /** Nothing changes for the other signals. */
  lemma CaughtElsewhere(t: Tables, r: Tables, signal: int, original: map<int, Disposition>)
    requires Caught(t, original) && SameElsewhere(t, r, signal)
    requires CaughtAt(r, signal, Initial(original).Handles(signal))
    ensures Caught(r, original)
  {
    forall s
      ensures CaughtAt(r, s, Initial(original).Handles(s))
    {
      assert CaughtAt(t, s, Initial(original).Handles(s));
    }
  }

  lemma {:induction false} FirstMatchIsNewest(ids: seq<nat>, table: map<nat, Callback>, func: int, data: int, id: nat)
    requires Descending(ids) && id in ids && id in table && table[id].func == func && table[id].data == data
    ensures var r := FirstMatch(ids, table, func, data);
      r.Some? && id <= r.value && table[r.value].func == func && table[r.value].data == data
  {
    if ids[0] in table && table[ids[0]].func == func && table[ids[0]].data == data {
      var k :| 0 <= k < |ids| && ids[k] == id;
    } else {
      FirstMatchIsNewest(ids[1..], table, func, data, id);
    }
  }

  // ---------- Any sequence of operations ----------

  datatype Operation =
    | Add(callback: Callback)
    | Remove(id: nat)
    | RemoveFunc(signal: int, func: int, data: int)

  /** The id an operation removes, if it finds one. */
  function Victim(t: Tables, op: Operation): (r: Option<nat>)
    ensures r.Some? ==> r.value in t.ids
  {
    match op
    case Add(_) => None
    case Remove(id) => if id in t.ids then Some(id) else None
    case RemoveFunc(signal, func, data) => FirstMatch(t.ListOf(signal), t.ids, func, data)
  }

  ghost function Apply(t: Tables, op: Operation): (r: Tables) {
    if op.Add? then Added(t, op.callback)
    else
      var victim := Victim(t, op);
      if victim.Some? then Dropped(t, victim.value) else t
  }

  ghost function ApplyAll(t: Tables, ops: seq<Operation>): (r: Tables)
    decreases |ops|
  {
    if ops == [] then t else ApplyAll(Apply(t, ops[0]), ops[1..])
  }

  lemma ApplyAgrees(t: Tables, op: Operation, original: map<int, Disposition>)
    requires Agree(t, original)
    ensures Agree(Apply(t, op), original)
  {
    if op.Add? {
      var signal := op.callback.signal;
      AddListed(t, op.callback);
      AddHere(t, op.callback);
      AddCaughtHere(t, op.callback, Initial(original).Handles(signal));
      CaughtElsewhere(t, Added(t, op.callback), signal, original);
    } else {
      var victim := Victim(t, op);
      if victim.Some? {
        var signal := t.ids[victim.value].signal;
        DropListed(t, victim.value);
        DropHere(t, victim.value);
        DropCaughtHere(t, victim.value, Initial(original).Handles(signal));
        CaughtElsewhere(t, Dropped(t, victim.value), signal, original);
      }
    }
  }

  /** After any sequence of additions and removals the tables agree with one another and with the system. */
  lemma {:induction false} RunAgrees(t: Tables, ops: seq<Operation>, original: map<int, Disposition>)
    requires Agree(t, original)
    ensures Agree(ApplyAll(t, ops), original)
    decreases |ops|
  {
    if ops != [] {
      ApplyAgrees(t, ops[0], original);
      RunAgrees(Apply(t, ops[0]), ops[1..], original);
    }
  }

  /** From a new handler: a signal is caught exactly while some callback is registered for it, and is
      otherwise handled as it was at first. */
  lemma CaughtWhileRegistered(os: map<int, Disposition>, ops: seq<Operation>, s: int)
    ensures var t := ApplyAll(Initial(os), ops);
      if exists id :: id in t.ids && t.ids[id].signal == s then t.Handles(s) == Ours && s in t.actions
      else t.Handles(s) == Initial(os).Handles(s) && s !in t.actions
  {
    InitiallyAgree(os);
    RunAgrees(Initial(os), ops, os);
    var t := ApplyAll(Initial(os), ops);
    assert CaughtAt(t, s, Initial(os).Handles(s)) && ListedAt(t, s);
    if t.ListOf(s) != [] {
      assert t.ListOf(s)[0] in t.ids;
    }
    if id :| id in t.ids && t.ids[id].signal == s {
      assert Filed(t, id);
    }
  }

  lemma InitiallyAgree(os: map<int, Disposition>)
    ensures Agree(Initial(os), os)
  {
  }

  // ---------- Running the callbacks ----------

  /** The callbacks a list runs, in order: those still registered with a function (0 is the null function). */
  function Runs(ids: seq<nat>, table: map<nat, Callback>): (r: seq<nat>) {
    if ids == [] then []
    else (if ids[0] in table && table[ids[0]].func != 0 then [ids[0]] else []) + Runs(ids[1..], table)
  }

  function RunsAll(t: Tables, signals: seq<int>): (r: seq<nat>) {
    if signals == [] then [] else Runs(t.ListOf(signals[0]), t.ids) + RunsAll(t, signals[1..])
  }

  lemma {:induction false} RunsInOrder(ids: seq<nat>, table: map<nat, Callback>)
    requires Descending(ids)
    ensures Descending(Runs(ids, table))
    ensures forall id :: id in Runs(ids, table) <==> id in ids && id in table && table[id].func != 0
  {
    if ids != [] {
      var rest := Runs(ids[1..], table);
      RunsInOrder(ids[1..], table);
      assert ids == [ids[0]] + ids[1..];
      assert forall x :: x in rest ==> x < ids[0] by {
        assert forall k :: 0 < k < |ids| ==> ids[k] < ids[0];
      }
      if ids[0] in table && table[ids[0]].func != 0 {
        PrependDescends(rest, ids[0]);
      }
    }
  }

  /** One delivery of a signal runs each callback registered for it that has a function, once, newest first. */
  lemma DeliveryRunsEach(t: Tables, original: map<int, Disposition>, s: int)
    requires Agree(t, original)
    ensures Descending(RunsAll(t, [s]))
    ensures forall id :: id in RunsAll(t, [s]) <==> id in t.ids && t.ids[id].signal == s && t.ids[id].func != 0
  {
    assert ListedAt(t, s);
    RunsInOrder(t.ListOf(s), t.ids);
    assert RunsAll(t, [s]) == Runs(t.ListOf(s), t.ids);
    forall id | id in t.ids && t.ids[id].signal == s
      ensures id in t.ListOf(s)
    {
      assert Filed(t, id);
    }
  }

  lemma {:induction false} RunsAllAppend(t: Tables, a: seq<int>, b: seq<int>)
    ensures RunsAll(t, a + b) == RunsAll(t, a) + RunsAll(t, b)
    decreases |a|
  {
    if a == [] {
      assert a + b == b;
    } else {
      assert (a + b)[1..] == a[1..] + b;
      RunsAllAppend(t, a[1..], b);
      Regroup(Runs(t.ListOf(a[0]), t.ids), RunsAll(t, a[1..]), RunsAll(t, b));
    }
  }

  /** Several signals read at once are delivered one after the other, each to all its callbacks that have a
      function, newest first. */
  lemma DeliveriesRunInTurn(t: Tables, original: map<int, Disposition>, signals: seq<int>, k: nat)
    returns (here: seq<nat>)
    requires Agree(t, original) && k < |signals|
    ensures RunsAll(t, signals) == RunsAll(t, signals[..k]) + here + RunsAll(t, signals[k + 1..])
    ensures Descending(here)
    ensures forall id :: id in here <==> id in t.ids && t.ids[id].signal == signals[k] && t.ids[id].func != 0
  {
    here := RunsAll(t, [signals[k]]);
    DeliveryRunsEach(t, original, signals[k]);
    assert signals == signals[..k] + [signals[k]] + signals[k + 1..];
    RunsAllAppend(t, signals[..k] + [signals[k]], signals[k + 1..]);
    RunsAllAppend(t, signals[..k], [signals[k]]);
  }

  // ---------- The object ----------

  datatype Watch = Kept | Exited | FatalCalled

  class Handler {
    var lookup: map<int, seq<nat>>
    var ids: map<nat, Callback>
    var actions: map<int, Disposition>
    var nextId: nat
    var os: map<int, Disposition>
    var hasFatalFunc: bool
    var signalsBlocked: int
    var masked: bool
    ghost const original: map<int, Disposition>

    ghost function Look(): (t: Tables)
      reads this
    {
      Tables(lookup, ids, actions, nextId, os)
    }

    /** The tables agree, and signals are masked just while some block is open. */
    ghost predicate Valid()
      reads this
    {
      Agree(Look(), original) && signalsBlocked >= 0 && (masked <==> signalsBlocked > 0)
    }

    constructor (os: map<int, Disposition>)
      ensures Valid() && Look() == Initial(os) && original == os && signalsBlocked == 0
    {
      lookup, ids, actions, nextId, this.os := map[], map[], map[], 1, os;
      hasFatalFunc, signalsBlocked, masked, original := false, 0, false, os;
      new;
      InitiallyAgree(os);
    }

    method CatchSignal(signal: int)
      modifies this`actions, this`os
      ensures Look() == Catch(old(Look()), signal)
    {
      var before := if signal in os then os[signal] else Default;
      os := os[signal := Ours];
      actions := actions[signal := before];
    }

    method UncatchSignal(signal: int)
      modifies this`actions, this`os
      ensures Look() == Uncatch(old(Look()), signal)
    {
      if signal in actions {
        os := os[signal := actions[signal]];
        actions := actions - {signal};
      }
    }

    /** `cdm_signal_handler_add`. */
    method AddCallback(c: Callback) returns (id: nat)
      requires Valid()
      modifies this`lookup, this`ids, this`actions, this`nextId, this`os
      ensures Valid() && Look() == Apply(old(Look()), Add(c))
      ensures id == old(nextId) && id !in old(ids) && ids == old(ids)[id := c]
    {
      ghost var t := Look();
      assert nextId in ids ==> Filed(t, nextId);
      id := Enter(c);
      ApplyAgrees(t, Add(c), original);
    }

    method Enter(c: Callback) returns (id: nat)
      modifies this`lookup, this`ids, this`actions, this`nextId, this`os
      ensures Look() == Added(old(Look()), c) && id == old(nextId)
    {
      id := nextId;
      nextId := nextId + 1;
      if c.signal !in actions {
        CatchSignal(c.signal);
      }
      ids := ids[id := c];
      lookup := lookup[c.signal := [id] + (if c.signal in lookup then lookup[c.signal] else [])];
    }

    method Drop(id: nat)
      requires id in ids
      modifies this`lookup, this`ids, this`actions, this`os
      ensures Look() == Dropped(old(Look()), id)
    {
      var signal := ids[id].signal;
      var list := Without(if signal in lookup then lookup[signal] else [], id);
      if list == [] {
        UncatchSignal(signal);
      }
      lookup := lookup[signal := list];
      ids := ids - {id};
    }

    /** `cdm_signal_handler_remove`; an unknown id is ignored. */
    method RemoveCallback(id: nat)
      requires Valid()
      modifies this`lookup, this`ids, this`actions, this`os
      ensures Valid() && Look() == Apply(old(Look()), Remove(id))
      ensures ids == old(ids) - {id}
    {
      ghost var t := Look();
      if id in ids {
        Drop(id);
      }
      assert id !in t.ids ==> ids == t.ids - {id};
      ApplyAgrees(t, Remove(id), original);
    }

    /** `find_callback_data_by_func`. */
    method FindByFunc(signal: int, func: int, data: int) returns (found: Option<nat>)
      ensures found == FirstMatch(Look().ListOf(signal), ids, func, data)
    {
      var left := if signal in lookup then lookup[signal] else [];
      while left != []
        invariant FirstMatch(left, ids, func, data) == FirstMatch(Look().ListOf(signal), ids, func, data)
        decreases |left|
      {
        if left[0] in ids && ids[left[0]].func == func && ids[left[0]].data == data {
          return Some(left[0]);
        }
        left := left[1..];
      }
      return None;
    }

    /** `cdm_signal_handler_remove_func`: of the callbacks for the signal with this function and data, if there
        are any, the newest goes. */
    method RemoveByFunc(signal: int, func: int, data: int)
      requires Valid()
      modifies this`lookup, this`ids, this`actions, this`os
      ensures Valid() && Look() == Apply(old(Look()), RemoveFunc(signal, func, data))
      ensures (forall id :: id in old(ids) ==> old(ids)[id] != Callback(signal, func, data)) ==> ids == old(ids)
      ensures forall id :: id in old(ids) && old(ids)[id] == Callback(signal, func, data)
                           && (forall k :: k in old(ids) && old(ids)[k] == Callback(signal, func, data) ==> k <= id) ==>
        ids == old(ids) - {id}
    {
      ghost var t := Look();
      var found := FindByFunc(signal, func, data);
      assert ListedAt(t, signal);
      forall id | id in ids && ids[id] == Callback(signal, func, data)
        ensures found.Some? && id <= found.value && ids[found.value] == Callback(signal, func, data)
      {
        assert Filed(t, id);
        FirstMatchIsNewest(t.ListOf(signal), ids, func, data, id);
      }
      if found.Some? {
        FirstMatchMatches(t.ListOf(signal), ids, func, data);
        Drop(found.value);
      }
      ApplyAgrees(t, RemoveFunc(signal, func, data), original);
    }

    method BlockSignalsPush()
      requires Valid()
      modifies this`signalsBlocked, this`masked
      ensures Valid() && signalsBlocked == old(signalsBlocked) + 1
    {
      signalsBlocked := signalsBlocked + 1;
      if signalsBlocked == 1 {
        masked := true;
      }
    }

    method BlockSignalsPop()
      requires Valid() && signalsBlocked > 0
      modifies this`signalsBlocked, this`masked
      ensures Valid() && signalsBlocked == old(signalsBlocked) - 1
    {
      signalsBlocked := signalsBlocked - 1;
      if signalsBlocked == 0 {
        masked := false;
      }
    }

    /** The inner loop of `signal_io_watch`, over one signal's list. */
    method RunList(list: seq<nat>, returns0: nat -> bool) returns (ran: seq<nat>, fatal: bool)
      ensures ran == Runs(list, ids) && fatal == Fatal(ran, returns0)
    {
      ran, fatal := [], false;
      var left := list;
      while left != []
        invariant ran + Runs(left, ids) == Runs(list, ids)
        invariant fatal == Fatal(ran, returns0)
        decreases |left|
      {
        var id := left[0];
        if id in ids && ids[id].func != 0 {
          Regroup(ran, [id], Runs(left[1..], ids));
          FatalAppend(ran, [id], returns0);
          FatalOne(id, returns0);
          ran := ran + [id];
          if returns0(id) {
            fatal := true;
          }
        } else {
          assert [] + Runs(left[1..], ids) == Runs(left[1..], ids);
        }
        left := left[1..];
      }
      assert ran + [] == ran;
    }

    /** The outer loop, over the signal numbers read from the pipe. */
    method RunLists(signals: seq<int>, returns0: nat -> bool) returns (ran: seq<nat>, fatal: bool)
      ensures ran == RunsAll(Look(), signals) && fatal == Fatal(ran, returns0)
    {
      ran, fatal := [], false;
      ghost var t := Look();
      var left := signals;
      while left != []
        invariant ran + RunsAll(t, left) == RunsAll(t, signals)
        invariant fatal == Fatal(ran, returns0)
        decreases |left|
      {
        var more, bad := RunList(if left[0] in lookup then lookup[left[0]] else [], returns0);
        assert more == Runs(t.ListOf(left[0]), t.ids);
        Regroup(ran, more, RunsAll(t, left[1..]));
        FatalAppend(ran, more, returns0);
        ran, fatal := ran + more, fatal || bad;
        left := left[1..];
      }
      assert ran + [] == ran;
    }

    /** `signal_io_watch`, the callbacks not changing the tables; `returns0` says which of them return false. */
    method OnSignals(signals: seq<int>, returns0: nat -> bool) returns (ran: seq<nat>, watch: Watch)
      requires Valid()
      modifies this`signalsBlocked, this`masked
      ensures Valid() && signalsBlocked == old(signalsBlocked) && masked == old(masked)
      ensures ran == RunsAll(Look(), signals)
      ensures watch == Kept <==> !Fatal(ran, returns0)
      ensures watch != Kept ==> watch == if hasFatalFunc then FatalCalled else Exited
    {
      BlockSignalsPush();
      var fatal: bool;
      ran, fatal := RunLists(signals, returns0);
      BlockSignalsPop();
      watch := if !fatal then Kept else if hasFatalFunc then FatalCalled else Exited;
    }
  }

  /** Some callback that ran returned false. */
  ghost predicate Fatal(ran: seq<nat>, returns0: nat -> bool) {
    exists k :: 0 <= k < |ran| && returns0(ran[k])
  }

  lemma FatalOne(id: nat, returns0: nat -> bool)
    ensures Fatal([id], returns0) <==> returns0(id)
  {
    assert [id][0] == id;
  }

  lemma FatalAppend(a: seq<nat>, b: seq<nat>, returns0: nat -> bool)
    ensures Fatal(a + b, returns0) <==> Fatal(a, returns0) || Fatal(b, returns0)
  {
    if k :| 0 <= k < |a| && returns0(a[k]) {
      assert (a + b)[k] == a[k];
    }
    if k :| 0 <= k < |b| && returns0(b[k]) {
      assert (a + b)[|a| + k] == b[k];
    }
  }

  lemma {:induction false} FirstMatchMatches(ids: seq<nat>, table: map<nat, Callback>, func: int, data: int)
    requires FirstMatch(ids, table, func, data).Some?
    ensures var id := FirstMatch(ids, table, func, data).value;
      id in ids && id in table && table[id].func == func && table[id].data == data
  {
    if !(ids[0] in table && table[ids[0]].func == func && table[ids[0]].data == data) {
      FirstMatchMatches(ids[1..], table, func, data);
    }
  }
}
