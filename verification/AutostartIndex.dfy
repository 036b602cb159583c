/**
 The capplet's index of autostart files: for every desktop file name, which of
 the ordered XDG directories the entry shown comes from, and which is the first
 system directory that has a file of that name.
 */
module AutostartIndex {
  import opened SessionTypes

  datatype Name = Name(text: string)
  datatype Dir = Dir(path: string)
  datatype File = File(dir: Dir, name: Name)

  /** A known directory and its place in the search order; place 0 is the user's own. */
  datatype XdgDir = XdgDir(dir: Dir, index: nat)

  /** `G_MAXUINT`, which stands for "nowhere". */
  const NOWHERE := 0xFFFF_FFFF

  /** The fields of a `GspApp` that say where it comes from. */
  datatype Entry = Entry(from: Dir, position: nat, systemPosition: nat, savePending: bool, skipNext: bool)

  const SUFFIX := ".desktop"

  predicate IsDesktop(name: Name) {
    |name.text| >= |SUFFIX| && name.text[|name.text| - |SUFFIX|..] == SUFFIX
  }

  lemma DesktopSuffix(name: Name)
    ensures IsDesktop(name) <==> exists stem :: name.text == stem + ".desktop"
  {
    var n := |name.text| - |SUFFIX|;
    if IsDesktop(name) {
      assert name.text == name.text[..n] + SUFFIX;
    }
    if stem :| name.text == stem + ".desktop" {
      assert name.text[n..] == ".desktop";
    }
  }

  // ---------- The truth the index must agree with ----------

  ghost predicate Ordered(dirs: seq<XdgDir>) {
    && (forall i, j :: 0 <= i < j < |dirs| ==> dirs[i].dir != dirs[j].dir && dirs[i].index != dirs[j].index)
    && (forall i :: 0 <= i < |dirs| ==> dirs[i].index < NOWHERE)
  }

  /** The places that have a file of this name. */
  function Holders(dirs: seq<XdgDir>, files: set<File>, name: Name): (r: set<nat>) {
    set x | x in dirs && File(x.dir, name) in files :: x.index
  }

  /** `p` is the first place in `s`, or nowhere. */
  predicate First(p: nat, s: set<nat>) {
    if s == {} then p == NOWHERE else p in s && forall d :: d in s ==> p <= d
  }

  /** The entry points at the first place overall and the first system place, and was read from the former. */
  ghost predicate PointsInto(e: Entry, dirs: seq<XdgDir>, holders: set<nat>) {
    && holders != {}
    && First(e.position, holders)
    && First(e.systemPosition, holders - {0})
    && XdgDir(e.from, e.position) in dirs
    && !e.savePending
  }

  ghost predicate Right(e: Entry, dirs: seq<XdgDir>, files: set<File>, name: Name) {
    PointsInto(e, dirs, Holders(dirs, files, name))
  }

  /** Every desktop file name found in some directory has its right entry, and nothing else has one. */
  ghost predicate Exact(index: map<Name, Entry>, dirs: seq<XdgDir>, files: set<File>) {
    && (forall n :: n in index ==> IsDesktop(n) && Right(index[n], dirs, files, n))
    && (forall x, n :: x in dirs && File(x.dir, n) in files && IsDesktop(n) ==> n in index)
  }

  // ---------- What the operations do to the index ----------

  function Min(a: nat, b: nat): (r: nat) {
    if a < b then a else b
  }

  function NewEntry(dir: Dir, d: nat): (e: Entry) {
    Entry(dir, d, if d > 0 then d else NOWHERE, false, false)
  }

  /** What `gsp_app_new` asserts when it reads the file at place `d` for a known app. */
  predicate Loadable(index: map<Name, Entry>, name: Name, d: nat) {
    (d > 0 && name in index && index[name].position >= d && !index[name].savePending) ==>
      d <= index[name].systemPosition
  }

  /** `gsp_app_new` for a known app. */
  function Reloaded(e: Entry, dir: Dir, d: nat): (r: Entry) {
    if e.position == d && e.skipNext then e.(skipNext := false)
    else if e.position < d || e.savePending then e.(systemPosition := Min(d, e.systemPosition))
    else Entry(dir, d, if d > 0 then d else e.systemPosition, false, false)
  }

  function Loaded(index: map<Name, Entry>, dir: Dir, name: Name, d: nat): (r: map<Name, Entry>) {
    index[name := if name in index then Reloaded(index[name], dir, d) else NewEntry(dir, d)]
  }

  /** What `_gsp_app_manager_handle_delete` asserts. */
  predicate Deletable(e: Entry, d: nat) {
    && (d <= e.systemPosition && d < e.position ==> d == 0)
    && (e.position < d ==> e.systemPosition <= d)
  }

  function DirAt(dirs: seq<XdgDir>, d: nat): (r: Option<Dir>) {
    if dirs == [] then None else if dirs[0].index == d then Some(dirs[0].dir) else DirAt(dirs[1..], d)
  }

  function PlaceOf(dirs: seq<XdgDir>, dir: Dir): (r: Option<nat>)
    ensures r.None? ==> forall x :: x in dirs ==> x.dir != dir
    ensures r.Some? ==> XdgDir(dir, r.value) in dirs
  {
    if dirs == [] then None else if dirs[0].dir == dir then Some(dirs[0].index) else PlaceOf(dirs[1..], dir)
  }

  function After(places: set<nat>, d: nat): (r: set<nat>) {
    set p | p in places && p > d
  }

  /** `_gsp_app_manager_handle_delete`; `next` is the place of the next system copy, or nowhere. */
  function Deleted(e: Entry, dirs: seq<XdgDir>, d: nat, next: nat): (r: Option<Entry>) {
    if e.systemPosition < d || d < e.position then Some(e)
    else if e.position == d && (e.systemPosition == d || e.systemPosition == NOWHERE) then None
    else if e.systemPosition == d then Some(e.(systemPosition := next))
    else match DirAt(dirs, e.systemPosition)
      case None => None
      case Some(home) => Some(Reloaded(e.(position := NOWHERE), home, e.systemPosition))
  }

  function Put(index: map<Name, Entry>, name: Name, e: Option<Entry>): (r: map<Name, Entry>) {
    if e.Some? then index[name := e.value] else index - {name}
  }

  datatype FileEvent = Created | Changed | Removed

  /** `gsp_app_manager_xdg_dir_monitor`; `files` is what the directories hold by then. */
  ghost function Monitored(index: map<Name, Entry>, dirs: seq<XdgDir>, files: set<File>, event: FileEvent, f: File)
    : (r: map<Name, Entry>)
  {
    match PlaceOf(dirs, f.dir)
    case None => index
    case Some(d) =>
      if !IsDesktop(f.name) then index
      else if !event.Removed? then Loaded(index, f.dir, f.name, d)
      else if f.name !in index then index
      else
        var next := FirstOf(After(Holders(dirs, files, f.name), d));
        Put(index, f.name, Deleted(index[f.name], dirs, d, next))
  }

  /** What the assertions of the two files ask of the index when an event arrives. */
  predicate Acceptable(index: map<Name, Entry>, dirs: seq<XdgDir>, event: FileEvent, f: File) {
    var place := PlaceOf(dirs, f.dir);
    place.Some? && IsDesktop(f.name) ==>
      if event.Removed? then f.name in index ==> Deletable(index[f.name], place.value)
      else Loadable(index, f.name, place.value)
  }

  // ---------- Proofs about the places ----------

  lemma {:induction false} FirstExists(s: set<nat>) returns (p: nat)
    ensures First(p, s)
    decreases |s|
  {
    if s == {} {
      p := NOWHERE;
    } else {
      var x :| x in s;
      var rest := s - {x};
      var q := FirstExists(rest);
      assert s == rest + {x};
      p := if rest == {} || x < q then x else q;
    }
  }

  ghost function FirstOf(s: set<nat>): (p: nat)
    ensures First(p, s)
  {
    FirstIsThere(s);
    var p :| First(p, s);
    p
  }

  lemma FirstIsThere(s: set<nat>)
    ensures exists p :: First(p, s)
  {
    var p := FirstExists(s);
  }

  lemma FirstIsUnique(p: nat, q: nat, s: set<nat>)
    requires First(p, s) && First(q, s)
    ensures p == q
  {
  }

  lemma HoldersGain(dirs: seq<XdgDir>, files: set<File>, x: XdgDir, name: Name, n: Name)
    requires Ordered(dirs) && x in dirs
    ensures Holders(dirs, files + {File(x.dir, name)}, n)
         == Holders(dirs, files, n) + (if n == name then {x.index} else {})
  {
    forall y | y in dirs && y.dir == x.dir
      ensures y == x
    {
    }
  }

  lemma HoldersLose(dirs: seq<XdgDir>, files: set<File>, x: XdgDir, name: Name, n: Name)
    requires Ordered(dirs) && x in dirs
    ensures Holders(dirs, files - {File(x.dir, name)}, n)
         == Holders(dirs, files, n) - (if n == name then {x.index} else {})
  {
    forall y | y in dirs && (y.dir == x.dir || y.index == x.index)
      ensures y == x
    {
    }
  }

  lemma {:induction false} DirAtFinds(dirs: seq<XdgDir>, x: XdgDir)
    requires Ordered(dirs) && x in dirs
    ensures DirAt(dirs, x.index) == Some(x.dir)
  {
    if dirs[0].index == x.index {
      var i :| 0 <= i < |dirs| && dirs[i] == x;
    } else {
      var i :| 0 <= i < |dirs| && dirs[i] == x;
      assert dirs[1..][i - 1] == x;
      DirAtFinds(dirs[1..], x);
    }
  }

  /** One more place. */
  lemma FirstWith(p: nat, s: set<nat>, d: nat)
    requires First(p, s) && d < NOWHERE
    ensures First(Min(p, d), s + {d})
  {
    assert d in s + {d};
    if s == {} {
      assert s + {d} == {d};
    }
  }

  // ---------- Creating, changing and deleting a file ----------

  lemma ReloadedPoints(e: Entry, dirs: seq<XdgDir>, x: XdgDir, had: set<nat>)
    requires Ordered(dirs) && x in dirs && PointsInto(e, dirs, had)
    ensures e.position >= x.index > 0 ==> x.index <= e.systemPosition
    ensures PointsInto(Reloaded(e, x.dir, x.index), dirs, had + {x.index})
  {
    var d := x.index;
    FirstWith(e.position, had, d);
    if d > 0 {
      assert had + {d} - {0} == had - {0} + {d};
      FirstWith(e.systemPosition, had - {0}, d);
    } else {
      assert had + {d} - {0} == had - {0};
    }
    if e.position > 0 {
      assert e.position in had - {0};
      assert e.systemPosition == e.position;
    }
    if e.position == d {
      assert XdgDir(e.from, d) == x;
    }
  }

  lemma ReloadedRight(e: Entry, dirs: seq<XdgDir>, files: set<File>, x: XdgDir, name: Name)
    requires Ordered(dirs) && x in dirs && Right(e, dirs, files, name)
    ensures e.position >= x.index > 0 ==> x.index <= e.systemPosition
    ensures Right(Reloaded(e, x.dir, x.index), dirs, files + {File(x.dir, name)}, name)
  {
    HoldersGain(dirs, files, x, name, name);
    ReloadedPoints(e, dirs, x, Holders(dirs, files, name));
  }

  lemma FreshRight(dirs: seq<XdgDir>, files: set<File>, x: XdgDir, name: Name)
    requires Ordered(dirs) && x in dirs && Holders(dirs, files, name) == {}
    ensures Right(NewEntry(x.dir, x.index), dirs, files + {File(x.dir, name)}, name)
  {
    HoldersGain(dirs, files, x, name, name);
    assert Holders(dirs, files + {File(x.dir, name)}, name) == {x.index};
  }

  /** The rest of the index does not depend on this name's files. */
  ghost predicate ExactElsewhere(index: map<Name, Entry>, dirs: seq<XdgDir>, files: set<File>, name: Name) {
    forall n :: n in index && n != name ==> IsDesktop(n) && Right(index[n], dirs, files, n)
  }

  lemma ElsewhereKept(index: map<Name, Entry>, dirs: seq<XdgDir>, files: set<File>, now: set<File>, name: Name)
    requires Exact(index, dirs, files)
    requires forall n :: n != name ==> Holders(dirs, now, n) == Holders(dirs, files, n)
    ensures ExactElsewhere(index, dirs, now, name)
  {
    forall n | n in index && n != name
      ensures Right(index[n], dirs, now, n)
    {
      assert Holders(dirs, now, n) == Holders(dirs, files, n);
    }
  }

  /** An index exact elsewhere is exact when this name's entry is right. */
  lemma ExactFromParts(index: map<Name, Entry>, dirs: seq<XdgDir>, files: set<File>, now: set<File>, name: Name,
                       e: Option<Entry>)
    requires Exact(index, dirs, files) && IsDesktop(name)
    requires forall f: File :: f.name != name ==> (f in now <==> f in files)
    requires e.Some? ==> Right(e.value, dirs, now, name)
    requires ExactElsewhere(index, dirs, now, name)
    ensures Exact(Put(index, name, e), dirs, now) <==> (e.Some? || Holders(dirs, now, name) == {})
  {
    var r := Put(index, name, e);
    if e.None? && Holders(dirs, now, name) != {} {
      var p :| p in Holders(dirs, now, name);
      var y :| y in dirs && File(y.dir, name) in now && y.index == p;
      assert name !in r;
    }
    forall x, n | x in dirs && File(x.dir, n) in now && IsDesktop(n) && n != name
      ensures n in r
    {
      assert File(x.dir, n) in files;
    }
    if e.None? && Holders(dirs, now, name) == {} {
      assert forall x :: x in dirs && File(x.dir, name) in now ==> x.index in Holders(dirs, now, name);
    }
  }

  /** Reading a file that has appeared or changed keeps the index exact, and the assertion about its place holds. */
  lemma LoadKeepsExact(index: map<Name, Entry>, dirs: seq<XdgDir>, files: set<File>, x: XdgDir, name: Name)
    requires Ordered(dirs) && Exact(index, dirs, files) && x in dirs && IsDesktop(name)
    ensures Loadable(index, name, x.index)
    ensures Exact(Loaded(index, x.dir, name, x.index), dirs, files + {File(x.dir, name)})
  {
    var now, e := files + {File(x.dir, name)}, Loaded(index, x.dir, name, x.index)[name];
    if name in index {
      ReloadedRight(index[name], dirs, files, x, name);
    } else {
      UnknownHasNoFile(index, dirs, files, name);
      FreshRight(dirs, files, x, name);
    }
    forall n | n != name
      ensures Holders(dirs, now, n) == Holders(dirs, files, n)
    {
      HoldersGain(dirs, files, x, name, n);
    }
    ElsewhereKept(index, dirs, files, now, name);
    ExactFromParts(index, dirs, files, now, name, Some(e));
  }

  lemma UnknownHasNoFile(index: map<Name, Entry>, dirs: seq<XdgDir>, files: set<File>, name: Name)
    requires Exact(index, dirs, files) && IsDesktop(name) && name !in index
    ensures Holders(dirs, files, name) == {}
  {
  }

  /** The one deletion the index gets wrong: the file shown is a system file and another directory has a copy. */
  ghost predicate Misjudged(e: Entry, dirs: seq<XdgDir>, files: set<File>, x: XdgDir, name: Name) {
    e.position == x.index == e.systemPosition && Holders(dirs, files - {File(x.dir, name)}, name) != {}
  }

  predicate Bounded(places: set<nat>) {
    forall d :: d in places ==> d < NOWHERE
  }

  /** Only the user's copy is gone: the entry moves to the first system copy. */
  lemma UserCopyDeleted(e: Entry, dirs: seq<XdgDir>, had: set<nat>, home: Dir)
    requires PointsInto(e, dirs, had) && Bounded(had) && e.position == 0 && e.systemPosition != NOWHERE
    requires XdgDir(home, e.systemPosition) in dirs
    ensures PointsInto(Reloaded(e.(position := NOWHERE), home, e.systemPosition), dirs, had - {0})
  {
    assert had - {0} - {0} == had - {0};
  }

  /** The first system copy is gone, and the user's copy is the one shown. */
  lemma SystemCopyDeleted(e: Entry, dirs: seq<XdgDir>, had: set<nat>, next: nat)
    requires PointsInto(e, dirs, had) && Bounded(had) && e.systemPosition in had && e.position != e.systemPosition
    requires First(next, After(had - {e.systemPosition}, e.systemPosition))
    ensures e.position == 0
    ensures PointsInto(e.(systemPosition := next), dirs, had - {e.systemPosition})
  {
    var d := e.systemPosition;
    assert d in had - {0};
    assert had == (had - {0}) + (had * {0});
    forall p | p in had - {d} - {0}
      ensures p > d
    {
      assert p in had - {0};
    }
    assert After(had - {d}, d) == had - {d} - {0};
  }

  lemma DeletedPoints(e: Entry, dirs: seq<XdgDir>, had: set<nat>, d: nat, next: nat)
    requires PointsInto(e, dirs, had) && Bounded(had) && d in had
    requires First(next, After(had - {d}, d))
    requires e.systemPosition in had ==>
      exists home :: DirAt(dirs, e.systemPosition) == Some(home) && XdgDir(home, e.systemPosition) in dirs
    ensures Deletable(e, d)
    ensures var r := Deleted(e, dirs, d, next);
      && (r.Some? ==> PointsInto(r.value, dirs, had - {d}))
      && (r.None? && had - {d} != {} <==> e.position == d == e.systemPosition && had - {d} != {})
  {
    assert d > 0 ==> d in had - {0};
    assert e.position > 0 ==> e.position in had - {0};
    if e.systemPosition == d && e.position != d {
      SystemCopyDeleted(e, dirs, had, next);
    } else if e.position == d && e.systemPosition == NOWHERE {
      assert had - {0} == {};
    } else if e.position == d && e.systemPosition != d {
      assert d == 0;
      var home :| DirAt(dirs, e.systemPosition) == Some(home) && XdgDir(home, e.systemPosition) in dirs;
      UserCopyDeleted(e, dirs, had, home);
    } else if e.position != d {
      assert had - {d} - {0} == had - {0} - {d};
    }
  }

  lemma DeletedRight(e: Entry, dirs: seq<XdgDir>, files: set<File>, x: XdgDir, name: Name, next: nat)
    requires Ordered(dirs) && x in dirs && Right(e, dirs, files, name) && File(x.dir, name) in files
    requires First(next, After(Holders(dirs, files - {File(x.dir, name)}, name), x.index))
    ensures Deletable(e, x.index)
    ensures var r, now := Deleted(e, dirs, x.index, next), files - {File(x.dir, name)};
      && (r.Some? ==> Right(r.value, dirs, now, name))
      && (r.None? && Holders(dirs, now, name) != {} <==> Misjudged(e, dirs, files, x, name))
  {
    HoldersLose(dirs, files, x, name, name);
    var had := Holders(dirs, files, name);
    if e.systemPosition in had {
      var y :| y in dirs && y.index == e.systemPosition;
      DirAtFinds(dirs, y);
    }
    DeletedPoints(e, dirs, had, x.index, next);
  }

  /** Deleting a file keeps the index exact except in that one case. */
  lemma DeleteKeepsExactIff(index: map<Name, Entry>, dirs: seq<XdgDir>, files: set<File>, x: XdgDir, name: Name,
                            next: nat)
    requires Ordered(dirs) && Exact(index, dirs, files)
    requires x in dirs && File(x.dir, name) in files && name in index
    requires First(next, After(Holders(dirs, files - {File(x.dir, name)}, name), x.index))
    ensures Deletable(index[name], x.index)
    ensures Exact(Put(index, name, Deleted(index[name], dirs, x.index, next)), dirs, files - {File(x.dir, name)})
       <==> !Misjudged(index[name], dirs, files, x, name)
  {
    var now, e := files - {File(x.dir, name)}, Deleted(index[name], dirs, x.index, next);
    DeletedRight(index[name], dirs, files, x, name, next);
    forall n | n != name
      ensures Holders(dirs, now, n) == Holders(dirs, files, n)
    {
      HoldersLose(dirs, files, x, name, n);
    }
    ElsewhereKept(index, dirs, files, now, name);
    ExactFromParts(index, dirs, files, now, name, e);
  }

  // ---------- Filling the index ----------

  /** The files of one directory that have not been read yet. */
  function Unread(dir: Dir, names: set<Name>): (r: set<File>) {
    set n | n in names :: File(dir, n)
  }

  function NamesIn(dir: Dir, files: set<File>): (r: set<Name>) {
    set f | f in files && f.dir == dir :: f.name
  }

  lemma NewDirKeepsExact(index: map<Name, Entry>, dirs: seq<XdgDir>, files: set<File>, x: XdgDir)
    requires Exact(index, dirs, files) && forall y :: y in dirs ==> y.dir != x.dir
    ensures Exact(index, [x] + dirs, files - Unread(x.dir, NamesIn(x.dir, files)))
  {
    var now := files - Unread(x.dir, NamesIn(x.dir, files));
    assert forall f :: f in now <==> f in files && f.dir != x.dir by {
      assert forall f :: f in files && f.dir == x.dir ==> f.name in NamesIn(x.dir, files);
    }
    assert forall y :: y in [x] + dirs <==> y == x || y in dirs;
    forall n | n in index
      ensures Right(index[n], [x] + dirs, now, n)
    {
      assert Holders([x] + dirs, now, n) == Holders(dirs, files, n);
    }
  }

  /** Files without the suffix, or in directories the index does not know, do not matter. */
  lemma OtherFileKeepsExact(index: map<Name, Entry>, dirs: seq<XdgDir>, files: set<File>, now: set<File>)
    requires Exact(index, dirs, files)
    requires forall f: File :: IsDesktop(f.name) && PlaceOf(dirs, f.dir).Some? ==> (f in now <==> f in files)
    ensures Exact(index, dirs, now)
  {
    forall n | n in index
      ensures Right(index[n], dirs, now, n)
    {
      assert forall x :: x in dirs ==> (File(x.dir, n) in now <==> File(x.dir, n) in files);
      assert Holders(dirs, now, n) == Holders(dirs, files, n);
    }
  }

  // ---------- Any run of monitor events ----------

  function FilesAfter(files: set<File>, event: FileEvent, f: File): (r: set<File>) {
    if event.Removed? then files - {f} else files + {f}
  }

  /** The deletion of a system file that is shown while a copy of it exists elsewhere. */
  ghost predicate Misses(index: map<Name, Entry>, dirs: seq<XdgDir>, files: set<File>, event: FileEvent, f: File) {
    event.Removed? && f.name in index && PlaceOf(dirs, f.dir).Some?
    && Misjudged(index[f.name], dirs, files, XdgDir(f.dir, PlaceOf(dirs, f.dir).value), f.name)
  }

  /** For every event: the assertions hold, and the index stays exact unless the event is that deletion. */
  lemma EventKeepsExactIff(index: map<Name, Entry>, dirs: seq<XdgDir>, files: set<File>, event: FileEvent, f: File)
    requires Ordered(dirs) && Exact(index, dirs, files) && (event.Removed? ==> f in files)
    ensures Acceptable(index, dirs, event, f)
    ensures var now := FilesAfter(files, event, f);
      Exact(Monitored(index, dirs, now, event, f), dirs, now) <==> !Misses(index, dirs, files, event, f)
  {
    var now, place := FilesAfter(files, event, f), PlaceOf(dirs, f.dir);
    if place.None? || !IsDesktop(f.name) {
      OtherFileKeepsExact(index, dirs, files, now);
    } else {
      var x := XdgDir(f.dir, place.value);
      assert f == File(x.dir, f.name);
      if event.Removed? {
        var next := FirstOf(After(Holders(dirs, now, f.name), x.index));
        DeleteKeepsExactIff(index, dirs, files, x, f.name, next);
      } else {
        LoadKeepsExact(index, dirs, files, x, f.name);
      }
    }
  }

  /** Two system directories have the file; deleting the one shown drops the app although the other remains. */
  lemma VisibleSystemFileLost(a: Dir, b: Dir, n: Name)
    requires a != b && IsDesktop(n)
    ensures var dirs, index := [XdgDir(a, 1), XdgDir(b, 2)], map[n := Entry(a, 1, 1, false, false)];
      && Exact(index, dirs, {File(a, n), File(b, n)})
      && n !in Monitored(index, dirs, {File(b, n)}, Removed, File(a, n))
  {
    var dirs, files := [XdgDir(a, 1), XdgDir(b, 2)], {File(a, n), File(b, n)};
    assert dirs[0] == XdgDir(a, 1) && dirs[1] == XdgDir(b, 2);
    assert Holders(dirs, files, n) == {1, 2};
    assert PlaceOf(dirs, a) == Some(1);
  }

  /** A sequence of events in which no deletion is of that kind. */
  ghost predicate Judged(index: map<Name, Entry>, dirs: seq<XdgDir>, files: set<File>, trace: seq<(FileEvent, File)>)
    decreases |trace|
  {
    trace == [] ||
      var (event, f) := trace[0];
      var now := FilesAfter(files, event, f);
      && (event.Removed? ==> f in files)
      && !Misses(index, dirs, files, event, f)
      && Judged(Monitored(index, dirs, now, event, f), dirs, now, trace[1..])
  }

  ghost function MonitoredAll(index: map<Name, Entry>, dirs: seq<XdgDir>, files: set<File>,
                              trace: seq<(FileEvent, File)>)
    : (r: (map<Name, Entry>, set<File>))
    decreases |trace|
  {
    if trace == [] then (index, files)
    else
      var now := FilesAfter(files, trace[0].0, trace[0].1);
      MonitoredAll(Monitored(index, dirs, now, trace[0].0, trace[0].1), dirs, now, trace[1..])
  }

  /** After any such sequence every name's entry is the right one. */
  lemma {:induction false} RunKeepsExact(index: map<Name, Entry>, dirs: seq<XdgDir>, files: set<File>,
                                         trace: seq<(FileEvent, File)>)
    requires Ordered(dirs) && Exact(index, dirs, files) && Judged(index, dirs, files, trace)
    ensures var (r, now) := MonitoredAll(index, dirs, files, trace); Exact(r, dirs, now)
    decreases |trace|
  {
    if trace != [] {
      var (event, f) := trace[0];
      EventKeepsExactIff(index, dirs, files, event, f);
      var now := FilesAfter(files, event, f);
      RunKeepsExact(Monitored(index, dirs, now, event, f), dirs, now, trace[1..]);
    }
  }

  lemma UnreadNext(dir: Dir, files: set<File>, todo: set<Name>, name: Name)
    requires name in todo && todo <= NamesIn(dir, files)
    ensures files - Unread(dir, todo - {name}) == files - Unread(dir, todo) + {File(dir, name)}
    ensures File(dir, name) !in files - Unread(dir, todo)
  {
    assert Unread(dir, todo) == Unread(dir, todo - {name}) + {File(dir, name)};
    assert File(dir, name) in files;
  }

  /** The known directories come from the search path, at their places there, and include its first `i`. */
  ghost predicate Known(dirs: seq<XdgDir>, roots: seq<Dir>, i: nat)
    requires i <= |roots|
  {
    && Ordered(dirs)
    && (forall x :: x in dirs ==> x.index < |roots| && roots[x.index] == x.dir)
    && (forall k :: 0 <= k < i ==> PlaceOf(dirs, roots[k]).Some?)
  }

  // ---------- The objects ----------

  class GspApp {
    const basename: Name
    var path: Dir
    var xdgPosition: nat
    var xdgSystemPosition: nat
    var savePending: bool
    var skipNextMonitorEvent: bool

    ghost function Look(): (e: Entry)
      reads this
    {
      Entry(path, xdgPosition, xdgSystemPosition, savePending, skipNextMonitorEvent)
    }

    constructor (basename: Name, path: Dir, position: nat)
      ensures this.basename == basename && Look() == NewEntry(path, position)
    {
      this.basename, this.path, xdgPosition := basename, path, position;
      xdgSystemPosition := if position > 0 then position else NOWHERE;
      savePending, skipNextMonitorEvent := false, false;
    }

    /** The part of `gsp_app_new` that updates a known app. */
    method Reload(dir: Dir, position: nat)
      requires position > 0 && xdgPosition >= position && !savePending ==> position <= xdgSystemPosition
      modifies this
      ensures Look() == Reloaded(old(Look()), dir, position)
      ensures old(xdgPosition) == position && old(skipNextMonitorEvent) ==>
        Look() == old(Look()).(skipNext := false)
      ensures old(xdgPosition) < position || (old(savePending) && !(old(xdgPosition) == position
                                                                    && old(skipNextMonitorEvent))) ==>
        path == old(path) && xdgPosition == old(xdgPosition) && savePending == old(savePending)
        && skipNextMonitorEvent == old(skipNextMonitorEvent)
        && xdgSystemPosition <= position && xdgSystemPosition <= old(xdgSystemPosition)
        && (xdgSystemPosition == position || xdgSystemPosition == old(xdgSystemPosition))
      ensures old(xdgPosition) > position && !old(savePending) ==>
        path == dir && xdgPosition == position && !skipNextMonitorEvent
        && xdgSystemPosition == if position == 0 then old(xdgSystemPosition) else position
    {
      if xdgPosition == position && skipNextMonitorEvent {
        skipNextMonitorEvent := false;
        return;
      }
      if xdgPosition < position || savePending {
        xdgSystemPosition := Min(position, xdgSystemPosition);
        return;
      }
      path := dir;
      if position > 0 {
        assert position <= xdgSystemPosition;
        xdgSystemPosition := position;
      }
      xdgPosition := position;
      savePending, skipNextMonitorEvent := false, false;
    }
  }

  /** Basenames are unique, and `names` is the set of them. */
  ghost predicate Named(apps: seq<GspApp>, names: set<Name>) {
    && (forall i, j :: 0 <= i < j < |apps| ==> apps[i].basename != apps[j].basename)
    && (forall i :: 0 <= i < |apps| ==> apps[i].basename in names)
    && (forall n :: n in names ==> exists i :: 0 <= i < |apps| && apps[i].basename == n)
  }

  lemma NamesApart(apps: seq<GspApp>, names: set<Name>, app: GspApp)
    requires Named(apps, names) && app in apps
    ensures app.basename in names && forall a :: a in apps && a != app ==> a.basename != app.basename
  {
  }

  lemma NamedPrepend(apps: seq<GspApp>, names: set<Name>, app: GspApp)
    requires Named(apps, names) && app.basename !in names
    ensures Named([app] + apps, names + {app.basename})
  {
    var now := [app] + apps;
    forall n | n in names + {app.basename}
      ensures exists i :: 0 <= i < |now| && now[i].basename == n
    {
      if n in names {
        var i :| 0 <= i < |apps| && apps[i].basename == n;
        assert now[i + 1].basename == n;
      } else {
        assert now[0].basename == n;
      }
    }
  }

  lemma NamedWithout(apps: seq<GspApp>, names: set<Name>, k: nat)
    requires Named(apps, names) && k < |apps|
    ensures var now := apps[..k] + apps[k + 1..];
      Named(now, names - {apps[k].basename}) && forall a :: a in now ==> a in apps
  {
    var now := apps[..k] + apps[k + 1..];
    assert forall i :: 0 <= i < |now| ==> now[i] == apps[if i < k then i else i + 1];
    forall n | n in names - {apps[k].basename}
      ensures exists i :: 0 <= i < |now| && now[i].basename == n
    {
      var i :| 0 <= i < |apps| && apps[i].basename == n;
      assert now[if i < k then i else i - 1].basename == n;
    }
  }

  class AppManager {
    var dirs: seq<XdgDir>
    var apps: seq<GspApp>
    ghost var index: map<Name, Entry>

    /** One app per basename, and the index says what their fields are. */
    ghost predicate Valid()
      reads this, apps
    {
      Named(apps, index.Keys) && forall a :: a in apps ==> index[a.basename] == a.Look()
    }

    /** `Valid`, except for what the index says of one app. */
    ghost predicate ValidBut(app: GspApp)
      reads this, apps
    {
      Named(apps, index.Keys) && forall a :: a in apps && a != app ==> index[a.basename] == a.Look()
    }

    ghost method Refresh(app: GspApp)
      requires ValidBut(app) && app in apps
      modifies this`index
      ensures Valid() && index == old(index)[app.basename := app.Look()]
    {
      NamesApart(apps, index.Keys, app);
      assert app.basename in index.Keys;
      index := index[app.basename := app.Look()];
      assert index.Keys == old(index.Keys);
    }

    constructor ()
      ensures Valid() && apps == [] && dirs == [] && index == map[]
    {
      dirs, apps, index := [], [], map[];
    }

    /** `gsp_app_manager_find_app_with_basename`. */
    method FindApp(name: Name) returns (app: GspApp?)
      requires Valid()
      ensures app == null <==> name !in index
      ensures app != null ==> app in apps && app.basename == name
    {
      app := null;
      var i := 0;
      while i < |apps|
        invariant i <= |apps| && forall j :: 0 <= j < i ==> apps[j].basename != name
      {
        if apps[i].basename == name {
          return apps[i];
        }
        i := i + 1;
      }
    }

    /** `gsp_app_manager_get_dir_index`; the original's -1 is None. */
    method GetDirIndex(dir: Dir) returns (found: Option<nat>)
      ensures found == PlaceOf(dirs, dir)
    {
      var left := dirs;
      while left != []
        invariant PlaceOf(left, dir) == PlaceOf(dirs, dir)
      {
        if left[0].dir == dir {
          return Some(left[0].index);
        }
        left := left[1..];
      }
      return None;
    }

    /** `gsp_app_manager_get_dir`. */
    method GetDir(d: nat) returns (found: Option<Dir>)
      ensures found == DirAt(dirs, d)
    {
      var left := dirs;
      while left != []
        invariant DirAt(left, d) == DirAt(dirs, d)
      {
        if left[0].index == d {
          return Some(left[0].dir);
        }
        left := left[1..];
      }
      return None;
    }

    /** `_gsp_app_manager_find_dir_with_basename`: a minimum search over the directories after `minimum`. */
    method FindDirAfter(files: set<File>, name: Name, minimum: nat) returns (result: Option<nat>)
      ensures var later := After(Holders(dirs, files, name), minimum);
              if result.None? then later == {} else result.value in later && First(result.value, later)
    {
      result := None;
      var i := 0;
      while i < |dirs|
        invariant i <= |dirs|
        invariant var later := After(Holders(dirs[..i], files, name), minimum);
                  if result.None? then later == {} else result.value in later && First(result.value, later)
      {
        var x := dirs[i];
        assert dirs[..i + 1] == dirs[..i] + [x];
        assert Holders(dirs[..i + 1], files, name)
            == Holders(dirs[..i], files, name) + (if File(x.dir, name) in files then {x.index} else {});
        ghost var later := After(Holders(dirs[..i], files, name), minimum);
        assert After(Holders(dirs[..i + 1], files, name), minimum)
            == later + (if x.index > minimum && File(x.dir, name) in files then {x.index} else {});
        if x.index > minimum && File(x.dir, name) in files {
          result := Some(if result.None? then x.index else Min(result.value, x.index));
        }
        i := i + 1;
      }
      assert dirs[..i] == dirs;
    }

    /** `gsp_app_manager_add`. */
    method Add(app: GspApp)
      requires Valid() && app.basename !in index
      modifies this`apps, this`index
      ensures Valid() && index == old(index)[app.basename := app.Look()] && apps == [app] + old(apps)
    {
      NamedPrepend(apps, index.Keys, app);
      apps := [app] + apps;
      index := index[app.basename := app.Look()];
      assert index.Keys == old(index.Keys) + {app.basename};
      forall a | a in old(apps)
        ensures index[a.basename] == a.Look()
      {
        NamesApart(old(apps), old(index.Keys), a);
      }
      assert forall a :: a in apps ==> a == app || a in old(apps);
    }

    /** `gsp_app_new` on a known app. */
    method Update(app: GspApp, dir: Dir, position: nat)
      requires Valid() && app in apps && Loadable(index, app.basename, position)
      modifies app, this`index
      ensures Valid() && index == Loaded(old(index), dir, app.basename, position)
    {
      app.Reload(dir, position);
      Refresh(app);
    }

    method Locate(app: GspApp) returns (i: nat)
      requires app in apps
      ensures i < |apps| && apps[i] == app
    {
      i := 0;
      while apps[i] != app
        invariant i < |apps| && app !in apps[..i]
        decreases |apps| - i
      {
        assert apps == apps[..i + 1] + apps[i + 1..];
        assert apps[..i + 1] == apps[..i] + [apps[i]];
        i := i + 1;
      }
    }

    /** `g_slist_remove`; basenames are unique, so there is one occurrence. */
    method Remove(app: GspApp)
      requires Valid() && app in apps
      modifies this`apps, this`index
      ensures Valid() && index == old(index) - {app.basename}
      ensures forall a :: a in apps ==> a in old(apps)
    {
      var i := Locate(app);
      NamedWithout(apps, index.Keys, i);
      apps := apps[..i] + apps[i + 1..];
      index := index - {app.basename};
      assert index.Keys == old(index.Keys) - {app.basename};
    }

    /** `_gsp_app_manager_handle_delete`. */
    method HandleDelete(app: GspApp, d: nat, files: set<File>)
      requires Valid() && app in apps && Deletable(app.Look(), d)
      modifies this`apps, this`index, app
      ensures Valid()
      ensures var next := FirstOf(After(Holders(dirs, files, app.basename), d));
              index == Put(old(index), app.basename, Deleted(old(app.Look()), dirs, d, next))
    {
      var position, systemPosition := app.xdgPosition, app.xdgSystemPosition;
      if systemPosition < d {
        return;
      }
      if d < position {
        assert d == 0;
        return;
      }
      if position == d && (systemPosition == d || systemPosition == NOWHERE) {
        Remove(app);
        return;
      }
      if systemPosition == d {
        var found := FindDirAfter(files, app.basename, d);
        ghost var later := After(Holders(dirs, files, app.basename), d);
        FirstIsUnique(FirstOf(later), if found.None? then NOWHERE else found.value, later);
        SetSystemPosition(app, if found.None? then NOWHERE else found.value);
        return;
      }
      assert position == d;
      var home := GetDir(systemPosition);
      if home.Some? {
        ReloadAt(app, home.value, systemPosition);
      } else {
        Remove(app);
      }
    }

    method SetSystemPosition(app: GspApp, position: nat)
      requires Valid() && app in apps
      modifies app, this`index
      ensures Valid()
      ensures index == old(index)[app.basename := old(app.Look()).(systemPosition := position)]
    {
      app.xdgSystemPosition := position;
      Refresh(app);
    }

    /** `gsp_app_reload_at`. */
    method ReloadAt(app: GspApp, dir: Dir, position: nat)
      requires Valid() && app in apps && position <= app.xdgSystemPosition
      modifies app, this`index
      ensures Valid()
      ensures index == old(index)[app.basename := Reloaded(old(app.Look()).(position := NOWHERE), dir, position)]
    {
      app.xdgPosition := NOWHERE;
      app.Reload(dir, position);
      Refresh(app);
    }

    /** `gsp_app_new` and what its callers do with a new app. */
    method Load(dir: Dir, name: Name, position: nat)
      requires Valid() && Loadable(index, name, position)
      modifies this`apps, this`index, apps
      ensures Valid() && index == Loaded(old(index), dir, name, position)
      ensures forall a :: a in apps ==> a in old(apps) || fresh(a)
    {
      var app := FindApp(name);
      if app == null {
        app := new GspApp(name, dir, position);
        Add(app);
      } else {
        Update(app, dir, position);
      }
    }

    /** The deletion of a file the manager watches. */
    method OnRemoved(name: Name, d: nat, files: set<File>)
      requires Valid() && (name in index ==> Deletable(index[name], d))
      modifies this`apps, this`index, apps
      ensures Valid()
      ensures name !in old(index) ==> index == old(index)
      ensures name in old(index) ==>
        var next := FirstOf(After(Holders(dirs, files, name), d));
        index == Put(old(index), name, Deleted(old(index)[name], dirs, d, next))
    {
      var app := FindApp(name);
      if app != null {
        HandleDelete(app, d, files);
      }
    }

    /** `gsp_app_manager_xdg_dir_monitor`. */
    method OnMonitor(event: FileEvent, f: File, files: set<File>)
      requires Valid() && Acceptable(index, dirs, event, f)
      modifies this`apps, this`index, apps
      ensures Valid() && index == Monitored(old(index), dirs, files, event, f)
    {
      if !IsDesktop(f.name) {
        return;
      }
      var place := GetDirIndex(f.dir);
      if place.None? {
        return;
      }
      match event
      case Removed => OnRemoved(f.name, place.value, files);
      case _ => Load(f.dir, f.name, place.value);
    }

    /** One file name of `_gsp_app_manager_fill_from_dir`'s loop. */
    method FillName(x: XdgDir, name: Name, ghost files: set<File>, ghost todo: set<Name>)
      requires Valid() && Reading(index, dirs, files, x, todo) && name in todo
      modifies this`apps, this`index, apps
      ensures Valid() && Reading(index, dirs, files, x, todo - {name})
      ensures forall a :: a in apps ==> a in old(apps) || fresh(a)
    {
      ReadNext(index, dirs, files, x, todo, name);
      if IsDesktop(name) {
        Load(x.dir, name, x.index);
      }
    }

    /** `_gsp_app_manager_fill_from_dir`, after the directory has been put at the head of `dirs`. */
    method FillFromDir(x: XdgDir, files: set<File>)
      requires Valid() && Reading(index, dirs, files, x, NamesIn(x.dir, files))
      modifies this`apps, this`index, apps
      ensures Valid() && Reading(index, dirs, files, x, {})
      ensures forall a :: a in apps ==> a in old(apps) || fresh(a)
    {
      var todo := NamesIn(x.dir, files);
      while todo != {}
        invariant Valid() && Reading(index, dirs, files, x, todo)
        invariant forall a :: a in apps ==> a in old(apps) || fresh(a)
        decreases todo
      {
        var name :| name in todo;
        assert forall i :: 0 <= i < |apps| ==> apps[i] in old(apps) || fresh(apps[i]);
        FillName(x, name, files, todo);
        todo := todo - {name};
      }
    }

    /** One directory of the search path; one met before is skipped. */
    method FillRoot(roots: seq<Dir>, i: nat, files: set<File>)
      requires i < |roots| < NOWHERE && Valid() && Filled(index, dirs, files, roots, i)
      modifies this, apps
      ensures Valid() && Filled(index, dirs, files, roots, i + 1)
      ensures forall a :: a in apps ==> a in old(apps) || fresh(a)
    {
      RootBegins(index, dirs, files, roots, i);
      var place := GetDirIndex(roots[i]);
      if place.None? {
        var x := XdgDir(roots[i], i);
        PushDir(x);
        FillFromDir(x, files);
        ReadEnds(index, dirs, files, x, roots, i + 1);
      }
    }

    method PushDir(x: XdgDir)
      requires Valid()
      modifies this`dirs
      ensures Valid() && dirs == [x] + old(dirs)
    {
      dirs := [x] + dirs;
    }

    /** `gsp_app_manager_fill` on the search path `roots`, the first time or again: every entry is right. */
    method Fill(roots: seq<Dir>, files: set<File>)
      requires |roots| < NOWHERE && Valid() && Filled(index, dirs, files, roots, 0)
      modifies this, apps
      ensures Valid() && Exact(index, dirs, files)
      ensures old(apps) == [] ==> Known(dirs, roots, |roots|)
    {
      if apps != [] {
        return;
      }
      var i := 0;
      while i < |roots|
        invariant i <= |roots| && Valid() && Filled(index, dirs, files, roots, i)
        invariant forall a :: a in apps ==> a in old(apps) || fresh(a)
      {
        FillRoot(roots, i, files);
        i := i + 1;
      }
    }
  }

  ghost predicate Filled(index: map<Name, Entry>, dirs: seq<XdgDir>, files: set<File>, roots: seq<Dir>, i: nat)
    requires i <= |roots|
  {
    Known(dirs, roots, i) && Exact(index, dirs, files)
  }

  lemma RootBegins(index: map<Name, Entry>, dirs: seq<XdgDir>, files: set<File>, roots: seq<Dir>, i: nat)
    requires i < |roots| < NOWHERE && Filled(index, dirs, files, roots, i)
    ensures PlaceOf(dirs, roots[i]).Some? ==> Filled(index, dirs, files, roots, i + 1)
    ensures PlaceOf(dirs, roots[i]).None? ==>
      var x := XdgDir(roots[i], i);
      Known([x] + dirs, roots, i + 1) && Reading(index, [x] + dirs, files, x, NamesIn(x.dir, files))
  {
    if PlaceOf(dirs, roots[i]).None? {
      KnownPrepend(dirs, roots, i);
      ReadBegins(index, dirs, files, XdgDir(roots[i], i));
    }
  }

  /** The index is exact as far as the files of `x` other than those in `todo`. */
  ghost predicate Reading(index: map<Name, Entry>, dirs: seq<XdgDir>, files: set<File>, x: XdgDir, todo: set<Name>) {
    && Ordered(dirs) && x in dirs && todo <= NamesIn(x.dir, files)
    && Exact(index, dirs, files - Unread(x.dir, todo))
  }

  lemma ReadBegins(index: map<Name, Entry>, dirs: seq<XdgDir>, files: set<File>, x: XdgDir)
    requires Exact(index, dirs, files) && Ordered([x] + dirs)
    ensures Reading(index, [x] + dirs, files, x, NamesIn(x.dir, files))
  {
    var now := [x] + dirs;
    forall y | y in dirs
      ensures y.dir != x.dir
    {
      var i :| 0 <= i < |dirs| && dirs[i] == y;
      assert now[0] == x && now[i + 1] == y;
    }
    NewDirKeepsExact(index, dirs, files, x);
    assert now[0] == x;
  }

  lemma ReadNext(index: map<Name, Entry>, dirs: seq<XdgDir>, files: set<File>, x: XdgDir, todo: set<Name>, name: Name)
    requires Reading(index, dirs, files, x, todo) && name in todo
    ensures Loadable(index, name, x.index) || !IsDesktop(name)
    ensures Reading(if IsDesktop(name) then Loaded(index, x.dir, name, x.index) else index,
                    dirs, files, x, todo - {name})
  {
    UnreadNext(x.dir, files, todo, name);
    if IsDesktop(name) {
      LoadKeepsExact(index, dirs, files - Unread(x.dir, todo), x, name);
    } else {
      OtherFileKeepsExact(index, dirs, files - Unread(x.dir, todo), files - Unread(x.dir, todo - {name}));
    }
  }

  lemma ReadEnds(index: map<Name, Entry>, dirs: seq<XdgDir>, files: set<File>, x: XdgDir,
                 roots: seq<Dir>, i: nat)
    requires i <= |roots| && Reading(index, dirs, files, x, {}) && Known(dirs, roots, i)
    ensures Filled(index, dirs, files, roots, i)
  {
    assert files - Unread(x.dir, {}) == files;
  }

  lemma KnownPrepend(dirs: seq<XdgDir>, roots: seq<Dir>, i: nat)
    requires i < |roots| < NOWHERE && Known(dirs, roots, i) && PlaceOf(dirs, roots[i]).None?
    ensures Known([XdgDir(roots[i], i)] + dirs, roots, i + 1)
  {
    var x := XdgDir(roots[i], i);
    var now := [x] + dirs;
    OrderedPrepend(dirs, x);
    forall y | y in now
      ensures y.index < |roots| && roots[y.index] == y.dir
    {
      assert y == x || y in dirs;
    }
    forall k | 0 <= k < i + 1
      ensures PlaceOf(now, roots[k]).Some?
    {
      PlaceOfPrepend(dirs, x, roots[k]);
    }
  }

  lemma PlaceOfPrepend(dirs: seq<XdgDir>, x: XdgDir, dir: Dir)
    ensures PlaceOf([x] + dirs, dir) == if x.dir == dir then Some(x.index) else PlaceOf(dirs, dir)
  {
    assert ([x] + dirs)[1..] == dirs;
  }

  lemma OrderedPrepend(dirs: seq<XdgDir>, x: XdgDir)
    requires Ordered(dirs) && x.index < NOWHERE && forall y :: y in dirs ==> y.dir != x.dir && y.index != x.index
    ensures Ordered([x] + dirs)
  {
    var now := [x] + dirs;
    assert forall j :: 0 < j < |now| ==> now[j] == dirs[j - 1] && now[j] in dirs;
  }
}
