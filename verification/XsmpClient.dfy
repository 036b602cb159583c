/**
 An XSMP client as the session manager keeps it: the array of properties the
 client has set, and the state of its SaveYourself requests.
 */
module XsmpClient {

  datatype PropName = PropName(text: string)
  datatype Prop = Prop(name: PropName, kind: string, vals: seq<string>)

  // ---------- The array as a map ----------

  ghost predicate Unique(props: seq<Prop>) {
    forall i, j :: 0 <= i < j < |props| ==> props[i].name != props[j].name
  }

  /** The array stands for `table`: the same properties, each under its name. */
  ghost predicate Stands(props: seq<Prop>, table: map<PropName, Prop>) {
    && Unique(props)
    && (forall p :: p in props ==> p.name in table && table[p.name] == p)
    && (forall n :: n in table ==> table[n] in props && table[n].name == n)
  }

  function SetAll(table: map<PropName, Prop>, batch: seq<Prop>): (r: map<PropName, Prop>) {
    if batch == [] then table
    else
      var last := batch[|batch| - 1];
      SetAll(table, batch[..|batch| - 1])[last.name := last]
  }

  /** A batch sets each property it mentions to the last value it gives. */
  lemma {:induction false} LastWriterWins(table: map<PropName, Prop>, batch: seq<Prop>, k: nat)
    requires k < |batch| && forall j :: k < j < |batch| ==> batch[j].name != batch[k].name
    ensures batch[k].name in SetAll(table, batch) && SetAll(table, batch)[batch[k].name] == batch[k]
  {
    if k < |batch| - 1 {
      LastWriterWins(table, batch[..|batch| - 1], k);
    }
  }

  /** A batch changes no other property. */
  lemma {:induction false} OthersKept(table: map<PropName, Prop>, batch: seq<Prop>, n: PropName)
    requires forall j :: 0 <= j < |batch| ==> batch[j].name != n
    ensures n in SetAll(table, batch) <==> n in table
    ensures n in table ==> SetAll(table, batch)[n] == table[n]
  {
    if batch != [] {
      OthersKept(table, batch[..|batch| - 1], n);
    }
  }

  function Names(batch: seq<PropName>): (r: set<PropName>) {
    set n | n in batch
  }

  // ---------- The steps on the array ----------

  /** `g_ptr_array_remove_index_fast`: the last element takes the place of the removed one. */
  function RemoveFast(props: seq<Prop>, i: nat): (r: seq<Prop>)
    requires i < |props|
  {
    props[i := props[|props| - 1]][..|props| - 1]
  }

  lemma RemoveFastStands(props: seq<Prop>, table: map<PropName, Prop>, i: nat)
    requires Stands(props, table) && i < |props|
    ensures Stands(RemoveFast(props, i), table - {props[i].name})
  {
    var r, last := RemoveFast(props, i), |props| - 1;
    assert forall k :: 0 <= k < |r| ==> r[k] == props[if k == i then last else k];
    forall n | n in table - {props[i].name}
      ensures table[n] in r
    {
      var k :| 0 <= k < |props| && props[k] == table[n];
      assert r[if k == last then i else k] == props[k];
    }
  }

  lemma AppendStands(props: seq<Prop>, table: map<PropName, Prop>, p: Prop)
    requires Stands(props, table) && p.name !in table
    ensures Stands(props + [p], table[p.name := p])
  {
    assert (props + [p])[|props|] == p;
  }

  /** What an array stands for is settled by the array. */
  lemma StandsForOne(props: seq<Prop>, a: map<PropName, Prop>, b: map<PropName, Prop>)
    requires Stands(props, a) && Stands(props, b)
    ensures a == b
  {
    forall n | n in a
      ensures n in b && b[n] == a[n]
    {
      assert a[n] in props;
    }
    forall n | n in b
      ensures n in a
    {
      assert b[n] in props;
    }
  }

  // ---------- The client ----------

  const NO_SAVE := -1

  class XsmpClient {
    var props: seq<Prop>
    var connected: bool
    var currentSaveYourself: int
    var nextSaveYourself: int
    var nextAllowInteract: bool
    ghost var shutdownsCancelled: nat
    ghost var table: map<PropName, Prop>

    ghost predicate Valid()
      reads this
    {
      Stands(props, table)
    }

    ghost predicate Settled()
      reads this
    {
      currentSaveYourself == NO_SAVE && nextSaveYourself == NO_SAVE && !nextAllowInteract
    }

    constructor ()
      ensures Valid() && table == map[] && connected && Settled() && shutdownsCancelled == 0
    {
      props, connected, currentSaveYourself, nextSaveYourself := [], true, NO_SAVE, NO_SAVE;
      nextAllowInteract, shutdownsCancelled, table := false, 0, map[];
    }

    /** `find_property`: what it finds is the map's value. */
    method FindProperty(name: PropName) returns (found: bool, index: nat)
      requires Valid()
      ensures found <==> name in table
      ensures found ==> index < |props| && props[index] == table[name]
    {
      found, index := false, 0;
      while index < |props|
        invariant index <= |props| && forall j :: 0 <= j < index ==> props[j].name != name
      {
        if props[index].name == name {
          found := true;
          return;
        }
        index := index + 1;
      }
    }

    /** `delete_property`: a name that is not there is no error. */
    method DeleteProperty(name: PropName)
      requires Valid()
      modifies this`props, this`table
      ensures Valid() && table == old(table) - {name}
    {
      var found, index := FindProperty(name);
      if !found {
        assert table - {name} == table;
        return;
      }
      RemoveFastStands(props, table, index);
      props := RemoveFast(props, index);
      table := table - {name};
    }

    /** `set_properties_callback`: each property replaces any of its name, in the order of the batch. */
    method SetProperties(batch: seq<Prop>)
      requires Valid()
      modifies this`props, this`table
      ensures Valid() && table == SetAll(old(table), batch)
    {
      var i := 0;
      while i < |batch|
        invariant i <= |batch| && Valid() && table == SetAll(old(table), batch[..i])
      {
        ghost var was := table;
        DeleteProperty(batch[i].name);
        AppendStands(props, table, batch[i]);
        props := props + [batch[i]];
        table := table[batch[i].name := batch[i]];
        assert table == was[batch[i].name := batch[i]];
        assert batch[..i + 1][..i] == batch[..i];
        i := i + 1;
      }
      assert batch[..i] == batch;
    }

    /** `delete_properties_callback`. */
    method DeleteProperties(names: seq<PropName>)
      requires Valid()
      modifies this`props, this`table
      ensures Valid() && table == old(table) - Names(names)
    {
      var i := 0;
      while i < |names|
        invariant i <= |names| && Valid() && table == old(table) - Names(names[..i])
      {
        DeleteProperty(names[i]);
        assert names[..i + 1] == names[..i] + [names[i]];
        assert Names(names[..i + 1]) == Names(names[..i]) + {names[i]};
        i := i + 1;
      }
      assert names[..i] == names;
    }

    /** `xsmp_cancel_end_session`: it fails, and changes nothing, when the connection is gone. */
    method CancelEndSession() returns (ok: bool)
      modifies this`currentSaveYourself, this`nextSaveYourself, this`nextAllowInteract, this`shutdownsCancelled
      ensures ok == connected
      ensures ok ==> Settled() && shutdownsCancelled == old(shutdownsCancelled) + 1
      ensures !ok ==> unchanged(this)
    {
      if !connected {
        return false;
      }
      shutdownsCancelled := shutdownsCancelled + 1;
      currentSaveYourself, nextSaveYourself, nextAllowInteract := NO_SAVE, NO_SAVE, false;
      return true;
    }
  }

  /** The loop of `cancel_end_session` over the client store: a client that fails does not stop it, and every
      connected one is told once and is as if no SaveYourself had been asked of it. */
  method CancelEach(clients: seq<XsmpClient>)
    requires forall i, j :: 0 <= i < j < |clients| ==> clients[i] != clients[j]
    modifies clients
    ensures forall c :: c in clients && c.connected ==>
      c.Settled() && c.shutdownsCancelled == old(c.shutdownsCancelled) + 1
    ensures forall c :: c in clients && !c.connected ==> unchanged(c)
    ensures forall c :: c in clients ==>
      c.connected == old(c.connected) && c.props == old(c.props) && c.table == old(c.table)
  {
    var i := 0;
    while i < |clients|
      invariant i <= |clients|
      invariant forall k :: 0 <= k < i && clients[k].connected ==>
        clients[k].Settled() && clients[k].shutdownsCancelled == old(clients[k].shutdownsCancelled) + 1
      invariant forall k :: 0 <= k < i && !clients[k].connected ==> unchanged(clients[k])
      invariant forall k :: i <= k < |clients| ==> unchanged(clients[k])
      invariant forall c :: c in clients ==>
        c.connected == old(c.connected) && c.props == old(c.props) && c.table == old(c.table)
    {
      var ok := clients[i].CancelEndSession();
      i := i + 1;
    }
  }
}
