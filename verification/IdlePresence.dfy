/**
 The user's presence status and the idle watch behind it: csm-presence.c on top
 of gs-idle-monitor.c.
 */
module IdlePresence {
  import opened SessionTypes
  import SessionRuns

  // ---------- 64-bit values of the X Sync extension ----------

  const TWO_31 := 0x8000_0000
  const TWO_32 := 0x1_0000_0000
  const TWO_63 := 0x8000_0000_0000_0000
  const TWO_64 := 0x1_0000_0000_0000_0000

  /** A signed high word and an unsigned low word. */
  datatype SyncValue = SyncValue(high: int, low: int)

  predicate IsInt64(v: int) {
    -TWO_63 <= v < TWO_63
  }

  predicate IsSyncValue(x: SyncValue) {
    -TWO_31 <= x.high < TWO_31 && 0 <= x.low < TWO_32
  }

  /** The C conversion from an unsigned to a signed type of `modulus` values. */
  function Signed(u: int, modulus: int): (v: int) {
    if u >= modulus / 2 then u - modulus else u
  }

  /** `_int64_to_xsyncvalue`. */
  function ToSync(v: int): (x: SyncValue) {
    SyncValue(Signed((v % TWO_64) / TWO_32, TWO_32), v % TWO_32)
  }

  /** `_xsyncvalue_to_int64`; the two halves of the bitwise or share no bit. */
  function FromSync(x: SyncValue): (v: int) {
    Signed(((x.high % TWO_64) * TWO_32) % TWO_64 + x.low % TWO_32, TWO_64)
  }

  lemma SameLow(v: int, u: int)
    requires u == v || u == v + TWO_64
    ensures v % TWO_32 == u % TWO_32
  {
    if u != v {
      assert v + TWO_64 == v + TWO_32 * TWO_32;
    }
  }

  /** The two words are the number's two's complement. */
  lemma SyncMeans(v: int)
    requires IsInt64(v)
    ensures v == ToSync(v).high * TWO_32 + ToSync(v).low
  {
    var u := v % TWO_64;
    assert u == if v < 0 then v + TWO_64 else v;
    SameLow(v, u);
    assert u == (u / TWO_32) * TWO_32 + u % TWO_32;
  }

  lemma SyncThere(v: int)
    requires IsInt64(v)
    ensures IsSyncValue(ToSync(v)) && FromSync(ToSync(v)) == v
  {
    var u := v % TWO_64;
    assert u == if v < 0 then v + TWO_64 else v;
    var high := u / TWO_32;
    assert 0 <= high < TWO_32;
    SameLow(v, u);
    assert u == high * TWO_32 + u % TWO_32;
    var h := Signed(high, TWO_32);
    assert h % TWO_64 == if h < 0 then h + TWO_64 else h;
    if h < 0 {
      assert (h + TWO_64) * TWO_32 == high * TWO_32 + (TWO_32 - 1) * TWO_64;
    }
    assert ((h % TWO_64) * TWO_32) % TWO_64 == high * TWO_32;
  }

  lemma SyncBack(x: SyncValue)
    requires IsSyncValue(x)
    ensures IsInt64(FromSync(x)) && ToSync(FromSync(x)) == x
  {
    var high := x.high % TWO_64;
    assert high == if x.high < 0 then x.high + TWO_64 else x.high;
    var h := if x.high < 0 then x.high + TWO_32 else x.high;
    if x.high < 0 {
      assert (x.high + TWO_64) * TWO_32 == h * TWO_32 + (TWO_32 - 1) * TWO_64;
    }
    assert (high * TWO_32) % TWO_64 == h * TWO_32;
    var u := h * TWO_32 + x.low;
    assert 0 <= u < TWO_64;
    var v := FromSync(x);
    assert v % TWO_64 == u;
    assert u / TWO_32 == h && u % TWO_32 == x.low;
    SameLow(v, u);
  }

  // ---------- The state ----------

  const AVAILABLE := 0
  const INVISIBLE := 1
  const BUSY := 2
  const IDLE := 3

  /** The default of the idle-timeout property, in milliseconds. */
  const DEFAULT_TIMEOUT := 300000

  /** One watch: both alarms wait for the same counter value. */
  datatype Watch = Watch(interval: SyncValue, positiveWait: SyncValue, negativeWait: SyncValue)

  /** `hasMonitor` is false when the display has no idle counter. `lastNonIdle` is a record, not a field of the
      original: the last status other than IDLE. */
  datatype State = State(
    status: nat,
    savedStatus: nat,
    idleEnabled: bool,
    idleTimeout: nat,
    screensaverActive: bool,
    hasMonitor: bool,
    watchId: nat,
    watches: map<nat, Watch>,
    serial: nat,
    lastNonIdle: nat)

  function Begin(hasMonitor: bool): (p: State) {
    State(AVAILABLE, AVAILABLE, false, DEFAULT_TIMEOUT, false, hasMonitor, 0, map[], 1, AVAILABLE)
  }

  predicate WatchWanted(p: State) {
    p.hasMonitor && !p.screensaverActive && p.idleEnabled && p.idleTimeout > 0
  }

  function NewWatch(interval: nat): (w: Watch) {
    var value := ToSync(interval);
    var wait := ToSync(FromSync(value) - 1);
    Watch(value, wait, wait)
  }

  /** The one live watch is the one remembered, it is live exactly when wanted, and it waits for the timeout. */
  ghost predicate WatchInv(p: State) {
    && 0 < p.serial < TWO_31
    && p.idleTimeout < TWO_32
    && p.watches == (if p.watchId > 0 then map[p.watchId := NewWatch(p.idleTimeout)] else map[])
    && (p.watchId > 0 <==> WatchWanted(p))
  }

  /** Other than IDLE, the status is the last such one; what is saved is never IDLE. */
  ghost predicate StatusInv(p: State) {
    && (p.status != IDLE ==> p.status == p.lastNonIdle)
    && p.lastNonIdle != IDLE && p.savedStatus != IDLE
  }

  // ---------- What the operations do ----------

  function WithStatus(p: State, status: nat): (r: State) {
    p.(status := status, lastNonIdle := if status == IDLE then p.lastNonIdle else status)
  }

  /** `csm_presence_set_status` called by anyone but the idle code. */
  function SetStatus(p: State, status: nat): (r: State) {
    if status == p.status then p else WithStatus(p, status)
  }

  /** `set_session_idle`. */
  function Notice(p: State, isIdle: bool): (r: State) {
    if isIdle then
      if p.status == IDLE then p else WithStatus(p.(savedStatus := p.status), IDLE)
    else
      if p.status != IDLE then p else WithStatus(p, p.savedStatus).(savedStatus := AVAILABLE)
  }

  /** `get_next_watch_serial`: the counter goes back to 1 before it would turn negative. */
  function NextSerial(serial: nat): (r: nat) {
    if serial + 1 >= TWO_31 then 1 else serial + 1
  }

  function RemoveWatch(p: State): (r: State) {
    if p.watchId > 0 then p.(watches := p.watches - {p.watchId}, watchId := 0) else p
  }

  function AddWatch(p: State): (r: State) {
    p.(watches := p.watches[p.serial := NewWatch(p.idleTimeout)], watchId := p.serial, serial := NextSerial(p.serial))
  }

  /** `reset_idle_watch`. */
  function ResetWatch(p: State): (r: State) {
    if !p.hasMonitor then p
    else if WatchWanted(p) then AddWatch(RemoveWatch(p)) else RemoveWatch(p)
  }

  datatype PresenceEvent =
    | StatusSet(status: nat)
    | EnabledSet(enabled: bool)
    | TimeoutSet(timeout: nat)
    | AlarmFired(id: nat, positive: bool)
    | ScreensaverChanged(active: bool)
    | ScreensaverGone

  function Handle(p: State, e: PresenceEvent): (r: State) {
    match e
    case StatusSet(status) => SetStatus(p, status)
    case EnabledSet(enabled) => if enabled == p.idleEnabled then p else ResetWatch(p.(idleEnabled := enabled))
    case TimeoutSet(timeout) => if timeout == p.idleTimeout then p else ResetWatch(p.(idleTimeout := timeout))
    case AlarmFired(id, positive) => if id in p.watches then Notice(p, positive) else p
    case ScreensaverChanged(active) =>
      if active == p.screensaverActive then p else Notice(ResetWatch(p.(screensaverActive := active)), active)
    case ScreensaverGone => ResetWatch(Notice(p.(screensaverActive := false), false))
  }

  /** Timeouts are unsigned 32-bit numbers. */
  predicate Sensible(e: PresenceEvent) {
    e.TimeoutSet? ==> e.timeout < TWO_32
  }

  // ---------- Exactly one watch ----------

  /** Whatever setting has just changed, resetting leaves exactly the watch that is wanted. */
  lemma ResetRestores(p: State, was: State)
    requires WatchInv(was) && p.idleTimeout < TWO_32
    requires p.watchId == was.watchId && p.watches == was.watches
    requires p.serial == was.serial && p.hasMonitor == was.hasMonitor
    ensures WatchInv(ResetWatch(p))
  {
    if p.hasMonitor {
      assert RemoveWatch(p).watches == map[];
    }
  }

  lemma HandleWatch(p: State, e: PresenceEvent)
    requires WatchInv(p) && Sensible(e)
    ensures WatchInv(Handle(p, e))
  {
    match e
    case StatusSet(_) =>
    case EnabledSet(enabled) => ResetRestores(p.(idleEnabled := enabled), p);
    case TimeoutSet(timeout) => ResetRestores(p.(idleTimeout := timeout), p);
    case AlarmFired(_, _) =>
    case ScreensaverChanged(active) => ResetRestores(p.(screensaverActive := active), p);
    case ScreensaverGone => ResetRestores(Notice(p.(screensaverActive := false), false), p);
  }

  function HandleAll(p: State, events: seq<PresenceEvent>): (r: State)
    decreases |events|
  {
    if events == [] then p else HandleAll(Handle(p, events[0]), events[1..])
  }

  /** After any events at all there is exactly one watch when the settings ask for one, and otherwise none. */
  lemma {:induction false} ExactlyOneWatch(p: State, events: seq<PresenceEvent>)
    requires WatchInv(p) && forall e :: e in events ==> Sensible(e)
    ensures var r := HandleAll(p, events);
      && WatchInv(r)
      && r.watches.Keys == (if WatchWanted(r) then {r.watchId} else {})
    decreases |events|
  {
    if events == [] {
      assert p.watches.Keys == if WatchWanted(p) then {p.watchId} else {};
    } else {
      HandleWatch(p, events[0]);
      ExactlyOneWatch(Handle(p, events[0]), events[1..]);
    }
  }

  /** Both alarms of a watch wait for one millisecond less than the timeout. */
  lemma WaitsForTimeout(timeout: nat)
    requires timeout < TWO_32
    ensures var w := NewWatch(timeout);
      && FromSync(w.interval) == timeout
      && FromSync(w.positiveWait) == timeout - 1 && FromSync(w.negativeWait) == timeout - 1
  {
    SyncThere(timeout);
    SyncThere(timeout - 1);
  }

  // ---------- The presence beside the session ----------

  /** The presence is told of the idle setting; before and after that, anything else may happen to it. */
  ghost predicate Hears(p: State, q: State, enabled: bool) {
    exists before, after :: HearsBetween(p, q, enabled, before, after)
  }

  ghost predicate HearsBetween(p: State, q: State, enabled: bool, before: seq<PresenceEvent>,
                               after: seq<PresenceEvent>) {
    && (forall e :: e in before ==> Sensible(e))
    && (forall e :: e in after ==> Sensible(e) && !e.EnabledSet?)
    && q == HandleAll(Handle(HandleAll(p, before), EnabledSet(enabled)), after)
  }

  /** Both objects from their creation on: what `update_idle` makes of the setting in each event of the session
      reaches the presence. */
  ghost predicate IsJointRun(run: seq<Session>, states: seq<State>) {
    && SessionRuns.IsRun(run) && |states| == |run|
    && states[0] == Begin(states[0].hasMonitor)
    && (forall k: nat :: k + 1 < |run| ==> Hears(states[k], states[k + 1], run[k + 1].idleEnabled))
  }

  lemma HandleKeeps(p: State, e: PresenceEvent)
    ensures var r := Handle(p, e);
      && r.hasMonitor == p.hasMonitor
      && r.idleEnabled == if e.EnabledSet? then e.enabled else p.idleEnabled
  {
  }

  lemma {:induction false} HandleAllKeeps(p: State, events: seq<PresenceEvent>)
    requires WatchInv(p) && forall e :: e in events ==> Sensible(e)
    ensures var r := HandleAll(p, events);
      && WatchInv(r) && r.hasMonitor == p.hasMonitor
      && ((forall e :: e in events ==> !e.EnabledSet?) ==> r.idleEnabled == p.idleEnabled)
    decreases |events|
  {
    if events != [] {
      HandleWatch(p, events[0]);
      HandleKeeps(p, events[0]);
      HandleAllKeeps(Handle(p, events[0]), events[1..]);
    }
  }

  lemma HearsKeeps(p: State, q: State, enabled: bool)
    requires WatchInv(p) && Hears(p, q, enabled)
    ensures WatchInv(q) && q.hasMonitor == p.hasMonitor && q.idleEnabled == enabled
  {
    var before, after :| HearsBetween(p, q, enabled, before, after);
    var p1 := HandleAll(p, before);
    HandleAllKeeps(p, before);
    HandleWatch(p1, EnabledSet(enabled));
    HandleKeeps(p1, EnabledSet(enabled));
    HandleAllKeeps(Handle(p1, EnabledSet(enabled)), after);
  }

  /** The two objects agree on the setting after every event. */
  lemma {:induction false} SettingsAgree(run: seq<Session>, states: seq<State>, k: nat)
    requires IsJointRun(run, states) && k < |run|
    ensures WatchInv(states[k]) && states[k].hasMonitor == states[0].hasMonitor
    ensures states[k].idleEnabled == run[k].idleEnabled
  {
    if k > 0 {
      SettingsAgree(run, states, k - 1);
      assert Hears(states[k - 1], states[k - 1 + 1], run[k - 1 + 1].idleEnabled);
      HearsKeeps(states[k - 1], states[k], run[k].idleEnabled);
    }
  }

  /** Whatever happens to the two, once the session has reached RUNNING the watch is live exactly when the
      display can be watched, no inhibitor forbids idling, the screensaver is off, and the timeout is positive. */
  lemma WatchFollowsInhibitors(run: seq<Session>, states: seq<State>, k: nat)
    requires IsJointRun(run, states) && k < |run| && run[k].phase >= RUNNING
    ensures var s, p := run[k], states[k];
      && |p.watches| <= 1
      && (|p.watches| == 1 <==> states[0].hasMonitor && !AnyFlag(s.inhibitors, IDLE_FLAG)
                                && !p.screensaverActive && p.idleTimeout > 0)
  {
    SettingsAgree(run, states, k);
    SessionRuns.RunInv(run, k);
    var p := states[k];
    assert p.watches.Keys == if WatchWanted(p) then {p.watchId} else {};
  }

  // ---------- The status ----------

  /** The status activity leads to: the present one, or the one saved. */
  function Home(p: State): (status: nat) {
    if p.status == IDLE then p.savedStatus else p.status
  }

  lemma ResetKeepsStatus(p: State)
    ensures var r := ResetWatch(p);
      r.status == p.status && r.savedStatus == p.savedStatus && r.lastNonIdle == p.lastNonIdle
  {
  }

  /** What each event makes of the status and the settings. An alarm counts only while its watch is live: the one
      for idleness makes the session idle, the one for activity brings back the status from before. A screensaver
      that comes on makes it idle too, and one that goes off or away brings the status back. */
  lemma EventSets(p: State, e: PresenceEvent)
    ensures var r := Handle(p, e);
      match e
      case StatusSet(status) => r == p.(status := status, lastNonIdle := r.lastNonIdle)
      case EnabledSet(enabled) => r.status == p.status && r.idleEnabled == enabled && r.idleTimeout == p.idleTimeout
                                  && r.screensaverActive == p.screensaverActive
      case TimeoutSet(timeout) => r.status == p.status && r.idleTimeout == timeout && r.idleEnabled == p.idleEnabled
                                  && r.screensaverActive == p.screensaverActive
      case AlarmFired(id, positive) =>
        if id !in p.watches then r == p
        else r.status == (if positive then IDLE else Home(p))
             && r == p.(status := r.status, savedStatus := r.savedStatus, lastNonIdle := r.lastNonIdle)
      case ScreensaverChanged(active) =>
        if active == p.screensaverActive then r == p
        else r.screensaverActive == active && r.status == (if active then IDLE else Home(p))
             && r.idleEnabled == p.idleEnabled && r.idleTimeout == p.idleTimeout
      case ScreensaverGone =>
        !r.screensaverActive && r.status == Home(p) && r.idleEnabled == p.idleEnabled && r.idleTimeout == p.idleTimeout
  {
    match e
    case StatusSet(_) =>
    case EnabledSet(enabled) => ResetKeepsSettings(p.(idleEnabled := enabled));
    case TimeoutSet(timeout) => ResetKeepsSettings(p.(idleTimeout := timeout));
    case AlarmFired(_, _) =>
    case ScreensaverChanged(active) => ResetKeepsSettings(p.(screensaverActive := active));
    case ScreensaverGone => ResetKeepsSettings(Notice(p.(screensaverActive := false), false));
  }

  lemma ResetKeepsSettings(p: State)
    ensures var r := ResetWatch(p);
      r == p.(watchId := r.watchId, watches := r.watches, serial := r.serial)
  {
  }

  lemma HandleStatus(p: State, e: PresenceEvent)
    requires StatusInv(p)
    ensures StatusInv(Handle(p, e)) && (!e.StatusSet? ==> Home(Handle(p, e)) == Home(p))
  {
    match e
    case StatusSet(_) =>
    case EnabledSet(enabled) => ResetKeepsStatus(p.(idleEnabled := enabled));
    case TimeoutSet(timeout) => ResetKeepsStatus(p.(idleTimeout := timeout));
    case AlarmFired(_, _) =>
    case ScreensaverChanged(active) => ResetKeepsStatus(p.(screensaverActive := active));
    case ScreensaverGone => ResetKeepsStatus(Notice(p.(screensaverActive := false), false));
  }

  lemma {:induction false} RunStatus(p: State, events: seq<PresenceEvent>)
    requires StatusInv(p)
    ensures StatusInv(HandleAll(p, events))
    decreases |events|
  {
    if events != [] {
      HandleStatus(p, events[0]);
      RunStatus(Handle(p, events[0]), events[1..]);
    }
  }

  /** Between explicit settings the status moves between IDLE and one other status, which any notice of
      activity restores. */
  lemma {:induction false} NoticesRestore(p: State, events: seq<PresenceEvent>)
    requires StatusInv(p) && forall e :: e in events ==> !e.StatusSet?
    ensures var r := HandleAll(p, events);
      && (r.status == IDLE || r.status == Home(p))
      && Notice(r, false).status == Home(p)
    decreases |events|
  {
    if events != [] {
      HandleStatus(p, events[0]);
      NoticesRestore(Handle(p, events[0]), events[1..]);
    }
  }

  /** What an onlooker who sees the status before and after an event, and whether the user set it, remembers:
      the status that a notice last turned into IDLE, until a notice turns IDLE back. */
  function Noted(p: State, e: PresenceEvent, before: Option<nat>): (r: Option<nat>) {
    var q := Handle(p, e);
    if e.StatusSet? then before
    else if p.status != IDLE && q.status == IDLE then Some(p.status)
    else if p.status == IDLE && q.status != IDLE then None
    else before
  }

  function Overridden(p: State, events: seq<PresenceEvent>, before: Option<nat>): (r: Option<nat>)
    decreases |events|
  {
    if events == [] then before
    else Overridden(Handle(p, events[0]), events[1..], Noted(p, events[0], before))
  }

  function OrAvailable(status: Option<nat>): (r: nat) {
    if status.Some? then status.value else AVAILABLE
  }

  /** What is saved is what such an onlooker remembers, or AVAILABLE. */
  lemma {:induction false} SavedIsOverridden(p: State, events: seq<PresenceEvent>, before: Option<nat>)
    requires StatusInv(p) && p.savedStatus == OrAvailable(before)
    ensures HandleAll(p, events).savedStatus == OrAvailable(Overridden(p, events, before))
    decreases |events|
  {
    if events != [] {
      HandleStatus(p, events[0]);
      HandleSaves(p, events[0], before);
      SavedIsOverridden(Handle(p, events[0]), events[1..], Noted(p, events[0], before));
    }
  }

  lemma HandleSaves(p: State, e: PresenceEvent, before: Option<nat>)
    requires StatusInv(p) && p.savedStatus == OrAvailable(before)
    ensures Handle(p, e).savedStatus == OrAvailable(Noted(p, e, before))
  {
    match e
    case StatusSet(_) =>
    case EnabledSet(enabled) => ResetKeepsStatus(p.(idleEnabled := enabled));
    case TimeoutSet(timeout) => ResetKeepsStatus(p.(idleTimeout := timeout));
    case AlarmFired(_, _) =>
    case ScreensaverChanged(active) => ResetKeepsStatus(p.(screensaverActive := active));
    case ScreensaverGone => ResetKeepsStatus(Notice(p.(screensaverActive := false), false));
  }

  /** After any events, a user whose status is not IDLE goes idle and comes back. If the idle code did it, the
      old status comes back. If the user chose IDLE, it comes back exactly when it is the status that a notice
      overrode and that was never returned to, or AVAILABLE when there is none. In between, and after, any
      notices and settings may come. */
  lemma ActivityRestoresIff(hasMonitor: bool, events: seq<PresenceEvent>, rest: seq<PresenceEvent>)
    requires forall e :: e in rest ==> !e.StatusSet?
    requires HandleAll(Begin(hasMonitor), events).status != IDLE
    ensures var p := HandleAll(Begin(hasMonitor), events);
      && Notice(HandleAll(Notice(p, true), rest), false).status == p.status
      && (Notice(HandleAll(SetStatus(p, IDLE), rest), false).status == p.status
          <==> p.status == OrAvailable(Overridden(Begin(hasMonitor), events, None)))
  {
    var p := HandleAll(Begin(hasMonitor), events);
    RunStatus(Begin(hasMonitor), events);
    SavedIsOverridden(Begin(hasMonitor), events, None);
    NoticesRestore(Notice(p, true), rest);
    NoticesRestore(SetStatus(p, IDLE), rest);
  }

  lemma HandleNext(p: State, e: PresenceEvent, rest: seq<PresenceEvent>)
    ensures HandleAll(p, [e] + rest) == HandleAll(Handle(p, e), rest)
  {
    assert ([e] + rest)[1..] == rest;
  }

  /** Choosing IDLE after BUSY brings back the status that was saved before BUSY was chosen. */
  lemma ChoosingIdleForgets(hasMonitor: bool)
    ensures var p := HandleAll(Begin(hasMonitor),
                               [StatusSet(INVISIBLE), ScreensaverChanged(true), StatusSet(BUSY), StatusSet(IDLE)]);
      p.status == IDLE && p.lastNonIdle == BUSY && Handle(p, ScreensaverChanged(false)).status == INVISIBLE
  {
    var e0, e1, e2, e3 := StatusSet(INVISIBLE), ScreensaverChanged(true), StatusSet(BUSY), StatusSet(IDLE);
    var p0 := Begin(hasMonitor);
    var p1 := Handle(p0, e0);
    var p2 := Handle(p1, e1);
    var p3 := Handle(p2, e2);
    HandleNext(p0, e0, [e1, e2, e3]);
    HandleNext(p1, e1, [e2, e3]);
    HandleNext(p2, e2, [e3]);
    HandleNext(p3, e3, []);
    assert [e0] + [e1, e2, e3] == [e0, e1, e2, e3] && [e1] + [e2, e3] == [e1, e2, e3];
    assert [e2] + [e3] == [e2, e3] && [e3] + [] == [e3];
    ResetKeepsStatus(p1.(screensaverActive := true));
    var p4 := Handle(p3, e3);
    assert p4.status == IDLE && p4.savedStatus == INVISIBLE && p4.screensaverActive && p4.lastNonIdle == BUSY;
    ResetKeepsStatus(p4.(screensaverActive := false));
  }

  // ---------- The objects ----------

  class IdleMonitor {
    var watches: map<nat, Watch>
    var serial: nat

    constructor ()
      ensures watches == map[] && serial == 1
    {
      watches, serial := map[], 1;
    }

    method AddWatch(interval: nat) returns (id: nat)
      modifies this
      ensures id == old(serial) && serial == NextSerial(old(serial))
      ensures watches == old(watches)[id := NewWatch(interval)]
    {
      id := serial;
      serial := serial + 1;
      if serial >= TWO_31 {
        serial := 1;
      }
      var value := ToSync(interval);
      var wait := ToSync(FromSync(value) - 1);
      watches := watches[id := Watch(value, wait, wait)];
    }

    method RemoveWatch(id: nat)
      modifies this`watches
      ensures watches == old(watches) - {id}
    {
      watches := watches - {id};
    }
  }

  class Presence {
    var status: nat
    var savedStatus: nat
    var idleEnabled: bool
    var idleTimeout: nat
    var screensaverActive: bool
    var watchId: nat
    const monitor: IdleMonitor?
    ghost var lastNonIdle: nat

    ghost function Look(): (p: State)
      reads this, monitor
    {
      State(status, savedStatus, idleEnabled, idleTimeout, screensaverActive, monitor != null, watchId,
            if monitor != null then monitor.watches else map[], if monitor != null then monitor.serial else 1,
            lastNonIdle)
    }

    ghost predicate Valid()
      reads this, monitor
    {
      WatchInv(Look()) && StatusInv(Look())
    }

    constructor (hasMonitor: bool)
      ensures Look() == Begin(hasMonitor) && Valid() && (monitor != null ==> fresh(monitor))
    {
      status, savedStatus, idleEnabled, idleTimeout := AVAILABLE, AVAILABLE, false, DEFAULT_TIMEOUT;
      screensaverActive, watchId, lastNonIdle := false, 0, AVAILABLE;
      if hasMonitor {
        monitor := new IdleMonitor();
      } else {
        monitor := null;
      }
    }

    /** `csm_presence_set_status` as the idle code calls it. */
    method ChangeStatus(s: nat)
      modifies this`status, this`lastNonIdle
      ensures Look() == WithStatus(old(Look()), s) || (s == old(status) && Look() == old(Look()))
      ensures s != old(status) ==> Look() == WithStatus(old(Look()), s)
    {
      if s != status {
        status := s;
        lastNonIdle := if s == IDLE then lastNonIdle else s;
      }
    }

    method SetSessionIdle(isIdle: bool)
      requires StatusInv(Look())
      modifies this`status, this`savedStatus, this`lastNonIdle
      ensures Look() == Notice(old(Look()), isIdle)
    {
      if isIdle {
        if status == IDLE {
          return;
        }
        savedStatus := status;
        ChangeStatus(IDLE);
      } else {
        if status != IDLE {
          return;
        }
        ChangeStatus(savedStatus);
        savedStatus := AVAILABLE;
      }
    }

    method ResetIdleWatch()
      modifies this`watchId, monitor
      ensures Look() == ResetWatch(old(Look()))
    {
      if monitor == null {
        return;
      }
      if watchId > 0 {
        monitor.RemoveWatch(watchId);
        watchId := 0;
      }
      if !screensaverActive && idleEnabled && idleTimeout > 0 {
        watchId := monitor.AddWatch(idleTimeout);
      }
    }

    method OnStatusSet(s: nat)
      requires Valid()
      modifies this`status, this`lastNonIdle
      ensures Valid() && Look() == Handle(old(Look()), StatusSet(s))
    {
      HandleWatch(Look(), StatusSet(s));
      HandleStatus(Look(), StatusSet(s));
      if s != status {
        ChangeStatus(s);
      }
    }

    method OnEnabledSet(enabled: bool)
      requires Valid()
      modifies this`idleEnabled, this`watchId, monitor
      ensures Valid() && Look() == Handle(old(Look()), EnabledSet(enabled))
    {
      HandleWatch(Look(), EnabledSet(enabled));
      HandleStatus(Look(), EnabledSet(enabled));
      if idleEnabled != enabled {
        idleEnabled := enabled;
        ResetIdleWatch();
      }
    }

    method OnTimeoutSet(timeout: nat)
      requires Valid() && timeout < TWO_32
      modifies this`idleTimeout, this`watchId, monitor
      ensures Valid() && Look() == Handle(old(Look()), TimeoutSet(timeout))
    {
      HandleWatch(Look(), TimeoutSet(timeout));
      HandleStatus(Look(), TimeoutSet(timeout));
      if timeout != idleTimeout {
        idleTimeout := timeout;
        ResetIdleWatch();
      }
    }

    /** `handle_alarm_notify_event`, and `on_idle_timeout` if the alarm's watch is still there. */
    method OnAlarm(id: nat, positive: bool)
      requires Valid()
      modifies this`status, this`savedStatus, this`lastNonIdle
      ensures Valid() && Look() == Handle(old(Look()), AlarmFired(id, positive))
    {
      HandleWatch(Look(), AlarmFired(id, positive));
      HandleStatus(Look(), AlarmFired(id, positive));
      if monitor != null && id in monitor.watches {
        SetSessionIdle(positive);
      }
    }

    method OnScreensaverChanged(active: bool)
      requires Valid()
      modifies this, monitor
      ensures Valid() && Look() == Handle(old(Look()), ScreensaverChanged(active))
    {
      HandleWatch(Look(), ScreensaverChanged(active));
      HandleStatus(Look(), ScreensaverChanged(active));
      if screensaverActive != active {
        screensaverActive := active;
        ResetKeepsStatus(Look());
        ResetIdleWatch();
        SetSessionIdle(active);
      }
    }

    /** `on_screensaver_proxy_destroy`: here the status comes first. */
    method OnScreensaverGone()
      requires Valid()
      modifies this, monitor
      ensures Valid() && Look() == Handle(old(Look()), ScreensaverGone)
    {
      HandleWatch(Look(), ScreensaverGone);
      HandleStatus(Look(), ScreensaverGone);
      screensaverActive := false;
      SetSessionIdle(false);
      ResetIdleWatch();
    }
  }
}
