/**
 The inhibit dialog's list of rows and the inhibitor store it watches. The store
 announces additions at once; a bulk removal empties the table first and
 announces the removals afterwards, one by one.
 */
module InhibitDialogRows {
  import opened SessionTypes
  import ForwardProofs
  import ReplyProofs
  import SessionSpec
  import SessionTheorems

  /** Cancel stands for every way of turning the dialog down. */
  datatype Response = Accept | Cancel | LockScreen

  /** `answers` are the responses that get past the dialog's own handler. */
  datatype View = View(rows: seq<nat>, isDone: bool, answers: seq<Response>, locks: nat)

  predicate Distinct(xs: seq<nat>) {
    forall i, j :: 0 <= i < j < |xs| ==> xs[i] != xs[j]
  }

  function Ids(xs: seq<nat>): (r: set<nat>) {
    set x | x in xs
  }

  /** An unanswered dialog has one row per inhibitor in the store. */
  predicate Shows(v: View, keys: set<nat>) {
    Distinct(v.rows) && Ids(v.rows) == keys
  }

  // ---------- What each handler does to the dialog ----------

  function Respond(v: View, response: Response): (r: View) {
    if v.isDone then v
    else if response.LockScreen? then v.(locks := v.locks + 1)
    else v.(isDone := true, answers := v.answers + [response])
  }

  function RowAdded(v: View, id: nat): (r: View) {
    if v.isDone || id in v.rows then v else v.(rows := v.rows + [id])
  }

  /** The first position of `id`, or the length. */
  function IndexOf(xs: seq<nat>, id: nat): (k: nat)
    ensures k <= |xs| && id !in xs[..k]
    ensures k < |xs| ==> xs[k] == id
  {
    if xs == [] || xs[0] == id then 0 else 1 + IndexOf(xs[1..], id)
  }

  function Without(xs: seq<nat>, id: nat): (r: seq<nat>) {
    var k := IndexOf(xs, id);
    if k == |xs| then xs else xs[..k] + xs[k + 1..]
  }

  function RowRemoved(v: View, id: nat): (r: View) {
    if v.isDone then v
    else
      var w := v.(rows := Without(v.rows, id));
      if w.rows == [] then Respond(w, Accept) else w
  }

  /** The delayed announcements of a bulk removal. */
  function RowsRemoved(v: View, ids: seq<nat>): (r: View)
    decreases |ids|
  {
    if ids == [] then v else RowsRemoved(RowRemoved(v, ids[0]), ids[1..])
  }

  // ---------- The rows mirror the store ----------

  lemma WithoutDrops(xs: seq<nat>, id: nat)
    requires Distinct(xs)
    ensures Distinct(Without(xs, id)) && Ids(Without(xs, id)) == Ids(xs) - {id}
  {
    var k, r := IndexOf(xs, id), Without(xs, id);
    if k < |xs| {
      assert forall i :: 0 <= i < |r| ==> r[i] == xs[if i < k then i else i + 1];
      forall x | x in Ids(xs) - {id}
        ensures x in r
      {
        var i :| 0 <= i < |xs| && xs[i] == x;
        assert r[if i < k then i else i - 1] == x;
      }
    }
  }

  lemma AddedMirrors(v: View, keys: set<nat>, id: nat)
    requires !v.isDone && Shows(v, keys)
    ensures Shows(RowAdded(v, id), keys + {id}) && !RowAdded(v, id).isDone
  {
    if id in v.rows {
      assert id in Ids(v.rows);
    }
  }

  lemma EmptyShows(v: View, keys: set<nat>)
    requires Shows(v, keys)
    ensures v.rows == [] <==> keys == {}
  {
    if v.rows != [] {
      assert v.rows[0] in Ids(v.rows);
    }
  }

  lemma RemovedMirrors(v: View, keys: set<nat>, id: nat)
    requires !v.isDone && Shows(v, keys)
    ensures var r := RowRemoved(v, id);
      && Shows(r, keys - {id})
      && (r.isDone <==> keys - {id} == {})
      && r.answers == v.answers + (if r.isDone then [Accept] else [])
      && r.locks == v.locks
  {
    WithoutDrops(v.rows, id);
    EmptyShows(v.(rows := Without(v.rows, id)), keys - {id});
  }

  /** A bulk removal leaves the rows equal to what is left in the store, and the dialog accepts itself
      exactly when nothing is left. */
  lemma {:induction false} BulkMirrors(v: View, keys: set<nat>, ids: seq<nat>)
    requires !v.isDone && Shows(v, keys) && Distinct(ids) && Ids(ids) <= keys
    ensures var r := RowsRemoved(v, ids);
      && Shows(r, keys - Ids(ids))
      && (r.isDone <==> ids != [] && Ids(ids) == keys)
      && r.answers == v.answers + (if r.isDone then [Accept] else [])
      && r.locks == v.locks
    decreases |ids|
  {
    if ids == [] {
      assert keys - Ids(ids) == keys;
    } else {
      var w := RowRemoved(v, ids[0]);
      RemovedMirrors(v, keys, ids[0]);
      HeadApart(ids, keys);
      assert RowsRemoved(v, ids) == RowsRemoved(w, ids[1..]);
      if w.isDone {
        assert ids[1..] == [];
      } else {
        BulkMirrors(w, keys - {ids[0]}, ids[1..]);
      }
    }
  }

  /** The first of the ids is not among the others. */
  lemma HeadApart(ids: seq<nat>, keys: set<nat>)
    requires ids != [] && Distinct(ids) && Ids(ids) <= keys
    ensures var rest, left := Ids(ids[1..]), keys - {ids[0]};
      && ids[0] in keys && Distinct(ids[1..]) && rest <= left
      && keys - Ids(ids) == left - rest
      && (Ids(ids) == keys <==> rest == left)
      && (rest == {} <==> ids[1..] == [])
  {
    var rest := ids[1..];
    assert ids == [ids[0]] + rest;
    assert forall x :: x in rest ==> exists k :: 1 <= k < |ids| && ids[k] == x;
    assert Ids(ids) == {ids[0]} + Ids(rest);
    assert rest != [] ==> rest[0] in Ids(rest);
    assert ids[0] in Ids(ids);
  }

  /** Although the table is already empty, no announcement but the last makes the dialog accept. */
  lemma OnlyTheLastAccepts(v: View, keys: set<nat>, ids: seq<nat>, k: nat)
    requires !v.isDone && Shows(v, keys) && Distinct(ids) && Ids(ids) <= keys && k < |ids|
    ensures !RowsRemoved(v, ids[..k]).isDone && RowsRemoved(v, ids[..k]).answers == v.answers
  {
    assert ids[k] in Ids(ids);
    assert forall i :: 0 <= i < k ==> ids[..k][i] == ids[i] != ids[k];
    assert forall x :: x in ids[..k] ==> x in ids;
    assert ids[k] !in Ids(ids[..k]);
    BulkMirrors(v, keys, ids[..k]);
  }

  /** An answered dialog takes no notice of the store or of further answers. */
  lemma {:induction false} AnsweredIsFinal(v: View, ids: seq<nat>, id: nat, response: Response)
    requires v.isDone
    ensures RowsRemoved(v, ids) == v && RowAdded(v, id) == v && Respond(v, response) == v
    decreases |ids|
  {
    if ids != [] {
      AnsweredIsFinal(v, ids[1..], id, response);
    }
  }

  // ---------- One answer ----------

  datatype DialogEvent = Responded(response: Response) | Came(id: nat) | Went(id: nat)

  function Happen(v: View, e: DialogEvent): (r: View) {
    match e
    case Responded(response) => Respond(v, response)
    case Came(id) => RowAdded(v, id)
    case Went(id) => RowRemoved(v, id)
  }

  function HappenAll(v: View, events: seq<DialogEvent>): (r: View)
    decreases |events|
  {
    if events == [] then v else HappenAll(Happen(v, events[0]), events[1..])
  }

  /** What the events amount to, for a store that holds `keys`: the user's first answer that is not to lock the
      screen, or Accept if the last inhibitor went before it. */
  function FirstAnswer(keys: set<nat>, events: seq<DialogEvent>): (a: Option<Response>)
    decreases |events|
  {
    if events == [] then None
    else match events[0]
      case Responded(LockScreen) => FirstAnswer(keys, events[1..])
      case Responded(response) => Some(response)
      case Came(id) => FirstAnswer(keys + {id}, events[1..])
      case Went(id) => if keys - {id} == {} then Some(Accept) else FirstAnswer(keys - {id}, events[1..])
  }

  lemma {:induction false} NoSecondAnswer(v: View, events: seq<DialogEvent>)
    requires v.isDone
    ensures HappenAll(v, events) == v
    decreases |events|
  {
    if events != [] {
      NoSecondAnswer(v, events[1..]);
    }
  }

  /** Whatever the user and the store do, the manager is answered at most once, and with just that answer. */
  lemma {:induction false} AnsweredOnce(v: View, keys: set<nat>, events: seq<DialogEvent>)
    requires !v.isDone && Shows(v, keys)
    ensures var r, a := HappenAll(v, events), FirstAnswer(keys, events);
      && r.answers == v.answers + (if a.Some? then [a.value] else [])
      && (r.isDone <==> a.Some?)
      && a != Some(LockScreen)
    decreases |events|
  {
    if events == [] {
      assert v.answers + [] == v.answers;
    } else {
      var w := Happen(v, events[0]);
      match events[0]
      case Responded(response) =>
        if response == LockScreen {
          AnsweredOnce(w, keys, events[1..]);
        } else {
          NoSecondAnswer(w, events[1..]);
        }
      case Came(id) =>
        AddedMirrors(v, keys, id);
        assert w.answers == v.answers;
        AnsweredOnce(w, keys + {id}, events[1..]);
      case Went(id) =>
        RemovedMirrors(v, keys, id);
        if keys - {id} == {} {
          NoSecondAnswer(w, events[1..]);
        } else {
          assert v.answers + [] == v.answers;
          AnsweredOnce(w, keys - {id}, events[1..]);
        }
    }
  }

  /** What the manager does with the one answer to a dialog about the end of the session: turned down, the
      logout is taken back; accepted, it goes on by force. */
  lemma AnswerDecides(s: Session, v: View, events: seq<DialogEvent>, env: Env)
    requires s.dialog.Some? && s.dialog.value.action.EndsSession() && QUERY_END_SESSION <= s.phase < EXIT
    requires !v.isDone && v.answers == [] && Shows(v, s.inhibitors.Keys)
    ensures var answers, a := HappenAll(v, events).answers, FirstAnswer(s.inhibitors.Keys, events);
      match a
      case None => answers == []
      case Some(answer) =>
        answers == [answer] && answer != LockScreen
        && var r := SessionSpec.InhibitDialogResponse(s, answer == Accept, env);
           if answer == Cancel then r.phase == RUNNING && r.logoutMode == Normal && r.logoutType == NoLogout
           else r.phase > s.phase && r.logoutMode == Force && r.logoutType == s.logoutType
  {
    AnsweredOnce(v, s.inhibitors.Keys, events);
    var s1 := SessionSpec.DialogClosed(s);
    var s2 := s1.(logoutMode := Force);
    SessionTheorems.CancelRestores(s1, env);
    assert SessionSpec.InhibitDialogResponse(s, false, env) == SessionSpec.CancelEndSession(s1, env);
    ForwardProofs.EndPhaseOnward(s2, DialogAccepted, env);
    ReplyProofs.EndPhaseParties(s2, DialogAccepted, env);
    assert SessionSpec.InhibitDialogResponse(s, true, env) == SessionSpec.EndPhase(s2, DialogAccepted, env);
  }

  /** The session's one-step account of a bulk removal is what the announcements add up to. */
  lemma BulkIsAtomic(s: Session, v: View, gone: set<nat>, ids: seq<nat>, env: Env)
    requires s.dialog.Some? && s.dialog.value.rows == s.inhibitors.Keys
    requires !v.isDone && Shows(v, s.inhibitors.Keys)
    requires Distinct(ids) && Ids(ids) == s.inhibitors.Keys * gone && ids != []
    ensures var r := RowsRemoved(v, ids);
      var left := SessionSpec.UpdateIdle(s.(inhibitors := s.inhibitors - gone)).(
                    dialog := Some(s.dialog.value.(rows := Ids(r.rows))));
      SessionSpec.RemoveInhibitors(s, gone, env)
      == if r.answers == v.answers + [Accept] then SessionSpec.InhibitDialogResponse(left, true, env) else left
  {
    BulkMirrors(v, s.inhibitors.Keys, ids);
    var r := RowsRemoved(v, ids);
    EmptyShows(r, s.inhibitors.Keys - Ids(ids));
    assert s.inhibitors.Keys - Ids(ids) == s.inhibitors.Keys - gone;
    assert ids[0] in Ids(ids);
    assert !(s.inhibitors.Keys !! gone);
    assert s.inhibitors.Keys == s.inhibitors.Keys * gone + (s.inhibitors.Keys - gone);
  }

  // ---------- The dialog ----------

  class InhibitDialog {
    var rows: seq<nat>
    var isDone: bool
    ghost var answers: seq<Response>
    var locks: nat

    ghost function Seen(): (v: View)
      reads this
    {
      View(rows, isDone, answers, locks)
    }

    /** `populate_model` visits the table in some order; its callback asks for nothing to be removed. */
    constructor (keys: set<nat>)
      ensures Shows(Seen(), keys) && !isDone && answers == [] && locks == 0
    {
      rows, isDone, answers, locks := [], false, [], 0;
      new;
      var todo := keys;
      while todo != {}
        invariant todo <= keys && Shows(Seen(), keys - todo) && !isDone && answers == [] && locks == 0
        decreases todo
      {
        var id :| id in todo;
        AddedMirrors(Seen(), keys - todo, id);
        assert id !in Ids(rows);
        rows := rows + [id];
        assert keys - (todo - {id}) == (keys - todo) + {id};
        todo := todo - {id};
      }
    }

    /** `find_inhibitor`: the first row with the id, or none. */
    method FindInhibitor(id: nat) returns (found: bool, at: nat)
      ensures at == IndexOf(rows, id)
      ensures found <==> at < |rows|
    {
      found, at := false, 0;
      while at < |rows| && !found
        invariant at <= |rows| && id !in rows[..at]
        invariant found ==> at < |rows| && rows[at] == id
        decreases |rows| - at, !found
      {
        if rows[at] == id {
          found := true;
        } else {
          at := at + 1;
        }
      }
    }

    /** `on_response`, and what the manager's handler is then called with. */
    method OnResponse(response: Response)
      modifies this
      ensures Seen() == Respond(old(Seen()), response)
      ensures old(isDone) ==> Seen() == old(Seen())
      ensures !old(isDone) && response != LockScreen ==>
        isDone && answers == old(answers) + [response] && rows == old(rows) && locks == old(locks)
      ensures !old(isDone) && response == LockScreen ==>
        !isDone && answers == old(answers) && rows == old(rows) && locks == old(locks) + 1
    {
      if isDone {
        return;
      }
      match response
      case LockScreen => locks := locks + 1;
      case _ =>
        isDone := true;
        answers := answers + [response];
    }

    method OnInhibitorAdded(id: nat)
      modifies this
      ensures Seen() == RowAdded(old(Seen()), id)
    {
      if isDone {
        return;
      }
      var found, at := FindInhibitor(id);
      if !found {
        rows := rows + [id];
      }
    }

    method OnInhibitorRemoved(id: nat)
      modifies this
      ensures Seen() == RowRemoved(old(Seen()), id)
    {
      if isDone {
        return;
      }
      var found, at := FindInhibitor(id);
      if found {
        rows := rows[..at] + rows[at + 1..];
      }
      if rows == [] {
        OnResponse(Accept);
      }
    }
  }

  // ---------- The store ----------

  class Store {
    var objects: map<nat, Inhibitor>
    var locked: bool
    var dialog: InhibitDialog?

    /** The dialog, if one is connected and unanswered, shows what the store holds. */
    ghost predicate Mirrored()
      reads this, dialog
    {
      dialog != null && !dialog.isDone ==> Shows(dialog.Seen(), objects.Keys)
    }

    constructor ()
      ensures objects == map[] && !locked && dialog == null && Mirrored()
    {
      objects, locked, dialog := map[], false, null;
    }

    /** `csm_inhibit_dialog_new`. */
    method OpenDialog()
      modifies this`dialog
      ensures dialog != null && fresh(dialog) && Mirrored()
      ensures !dialog.isDone && dialog.answers == []
    {
      dialog := new InhibitDialog(objects.Keys);
    }

    /** `csm_store_add`; a locked store takes nothing. */
    method Add(id: nat, inhibitor: Inhibitor) returns (added: bool)
      requires Mirrored()
      modifies this`objects, dialog
      ensures Mirrored()
      ensures added == !locked
      ensures objects == if added then old(objects)[id := inhibitor] else old(objects)
      ensures dialog != null ==> dialog.isDone == old(dialog.isDone) && dialog.answers == old(dialog.answers)
    {
      if locked {
        return false;
      }
      objects := objects[id := inhibitor];
      if dialog != null {
        if !dialog.isDone {
          AddedMirrors(dialog.Seen(), old(objects.Keys), id);
          assert objects.Keys == old(objects.Keys) + {id};
        }
        dialog.OnInhibitorAdded(id);
      }
      return true;
    }

    /** `csm_store_remove`. The dialog is accepted exactly when the last inhibitor goes. */
    method Remove(id: nat) returns (removed: bool)
      requires Mirrored()
      modifies this`objects, dialog
      ensures Mirrored()
      ensures removed <==> id in old(objects)
      ensures objects == old(objects) - {id}
      ensures dialog != null && !old(dialog.isDone) ==>
        (dialog.isDone <==> removed && objects == map[])
        && dialog.answers == old(dialog.answers) + (if dialog.isDone then [Accept] else [])
      ensures dialog != null && old(dialog.isDone) ==> dialog.Seen() == old(dialog.Seen())
    {
      if id !in objects {
        return false;
      }
      objects := objects - {id};
      assert objects.Keys == old(objects.Keys) - {id};
      if dialog != null {
        if !dialog.isDone {
          RemovedMirrors(dialog.Seen(), old(objects.Keys), id);
        }
        dialog.OnInhibitorRemoved(id);
      }
      assert objects == map[] <==> objects.Keys == {};
      return true;
    }

    /** The table half of `csm_store_foreach_remove`: the ids removed, latest first. */
    method RemoveMatching(gone: set<nat>) returns (removed: seq<nat>)
      modifies this`objects
      ensures objects == old(objects) - gone
      ensures Distinct(removed) && Ids(removed) == old(objects.Keys) * gone
    {
      var todo := objects.Keys;
      removed := [];
      while todo != {}
        invariant todo <= old(objects.Keys) && Distinct(removed)
        invariant Ids(removed) == (old(objects.Keys) - todo) * gone
        invariant objects == old(objects) - Ids(removed)
        decreases todo
      {
        var id :| id in todo;
        if id in gone {
          assert id !in Ids(removed);
          PrependIds(removed, id);
          removed := [id] + removed;
          objects := objects - {id};
        }
        todo := todo - {id};
      }
    }

    /** `csm_store_foreach_remove`: the table first, then the announcements. */
    method ForeachRemove(gone: set<nat>) returns (count: nat)
      requires Mirrored()
      modifies this`objects, dialog
      ensures Mirrored()
      ensures objects == old(objects) - gone
      ensures count == 0 <==> old(objects.Keys) !! gone
      ensures dialog != null && !old(dialog.isDone) ==>
        (dialog.isDone <==> count > 0 && objects == map[])
        && dialog.answers == old(dialog.answers) + (if dialog.isDone then [Accept] else [])
      ensures dialog != null && old(dialog.isDone) ==> dialog.Seen() == old(dialog.Seen())
    {
      var removed := RemoveMatching(gone);
      count := |removed|;
      assert count > 0 ==> removed[0] in Ids(removed);
      assert objects.Keys == old(objects.Keys) - Ids(removed);
      assert objects == map[] <==> objects.Keys == {};
      assert old(objects.Keys) == Ids(removed) + objects.Keys;
      assert objects.Keys == {} <==> Ids(removed) == old(objects.Keys);
      if dialog != null {
        if dialog.isDone {
          AnsweredIsFinal(dialog.Seen(), removed, 0, Accept);
        } else {
          BulkMirrors(dialog.Seen(), old(objects.Keys), removed);
        }
        Announce(dialog, removed);
      }
    }

    static method Announce(dialog: InhibitDialog, removed: seq<nat>)
      modifies dialog
      ensures dialog.Seen() == RowsRemoved(old(dialog.Seen()), removed)
    {
      var left := removed;
      while left != []
        invariant RowsRemoved(dialog.Seen(), left) == RowsRemoved(old(dialog.Seen()), removed)
        decreases |left|
      {
        dialog.OnInhibitorRemoved(left[0]);
        left := left[1..];
      }
    }
  }

  lemma PrependIds(xs: seq<nat>, id: nat)
    requires Distinct(xs) && id !in Ids(xs)
    ensures Distinct([id] + xs) && Ids([id] + xs) == {id} + Ids(xs)
  {
    assert forall x :: x in [id] + xs <==> x == id || x in xs;
    forall i, j | 0 <= i < j < |xs| + 1
      ensures ([id] + xs)[i] != ([id] + xs)[j]
    {
      assert xs[j - 1] in Ids(xs);
    }
  }
}
