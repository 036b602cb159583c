/**
 The values the session manager works on: phases, logout modes and types,
 clients, autostart apps, inhibitors, the record of what has been observed in
 a run, and the snapshot of the manager's private fields.
 */
module SessionTypes {

  datatype Option<+T> = None | Some(value: T)

  // ---------- Phases (csm-manager.h) ----------

  const STARTUP := 0
  const INITIALIZATION := 1
  const WINDOW_MANAGER := 2
  const PANEL := 3
  const DESKTOP := 4
  const APPLICATION := 5
  const RUNNING := 6
  const QUERY_END_SESSION := 7
  const END_SESSION := 8
  const EXIT := 9

  type Phase = p: int | 0 <= p <= 9

  datatype LogoutMode = Normal | NoConfirmation | Force

  datatype LogoutType =
    | NoLogout
    | Logout
    | Reboot
    | RebootInteract
    | RebootCdm
    | Shutdown
    | ShutdownInteract
    | ShutdownCdm

  /** What an inhibit dialog will do when it is accepted. */
  datatype LogoutAction =
    SwitchUserAction | LogoutAction | ShutdownAction | RebootAction | HibernateAction | SleepAction
  {
    predicate EndsSession() {
      LogoutAction? || ShutdownAction? || RebootAction?
    }
  }

  // ---------- Clients, apps and inhibitors ----------

  /** A connected client. XSMP clients have no bus name. */
  datatype Client = Client(serial: nat, bus: Option<string>)

  /** An autostart app, known by the id of its desktop file. */
  datatype App = App(id: string)

  datatype AppInfo = AppInfo(phase: Phase, disabled: bool, conditionallyDisabled: bool, delay: int)

  /** An app that `_start_app` launches itself: enabled and not delayed. */
  predicate Eligible(info: AppInfo, phase: Phase) {
    info.phase == phase && !info.disabled && !info.conditionallyDisabled && info.delay <= 0
  }

  function EligibleApps(apps: map<App, AppInfo>, phase: Phase): (r: set<App>) {
    set a | a in apps && Eligible(apps[a], phase)
  }

  const LOGOUT_FLAG := 1
  const SWITCH_USER_FLAG := 2
  const SUSPEND_FLAG := 4
  const IDLE_FLAG := 8

  /** Bit test on the inhibitor flags word; `flag` is a power of two. */
  predicate HasFlag(flags: nat, flag: nat)
    requires flag > 0
  {
    (flags / flag) % 2 == 1
  }

  /** `owner` is the client of a just-in-time (JIT) inhibitor; inhibitors taken with Inhibit have none. */
  datatype Inhibitor = Inhibitor(cookie: nat, owner: Option<Client>, bus: Option<string>, flags: nat)

  ghost predicate AnyFlag(inhibitors: map<nat, Inhibitor>, flag: nat)
    requires flag > 0
  {
    exists i :: i in inhibitors && HasFlag(inhibitors[i].flags, flag)
  }

  function Jit(inhibitors: map<nat, Inhibitor>): (r: set<nat>) {
    set i | i in inhibitors && inhibitors[i].owner.Some?
  }

  function OwnedBy(inhibitors: map<nat, Inhibitor>, c: Client): (r: set<nat>) {
    set i | i in inhibitors && inhibitors[i].owner == Some(c)
  }

  function FromBus(inhibitors: map<nat, Inhibitor>, bus: string): (r: set<nat>) {
    set i | i in inhibitors && inhibitors[i].bus == Some(bus)
  }

  function Cookies(inhibitors: map<nat, Inhibitor>): (r: set<nat>) {
    set i | i in inhibitors :: inhibitors[i].cookie
  }

  // ---------- The environment of one event ----------

  datatype Message = QueryMessage | EndMessage | LastMessage | CancelMessage | StopMessage

  /** Everything one event depends on and the manager does not decide. */
  datatype Env = Env(
    delivers: (Message, Client) -> bool,
    launches: App -> bool,
    lockedDown: bool,
    switchLockedDown: bool,
    autoSave: bool,
    logoutPrompt: bool)

  // ---------- What has been observed ----------

  /** A queried client's position in the current logout. */
  datatype Verdict = Unanswered | Refused | Agreed | Gone | Waived {
    predicate Open() {
      Unanswered? || Refused?
    }
  }

  /** Why a phase ended. The original passes no such argument; each call site of `end_phase` has its own. */
  datatype Cause =
    | NothingToStart
    | AppsReady
    | PhaseTimedOut
    | QueryComplete
    | DialogAccepted
    | LastClientLeft
    | RepliesIn
    | NoClients
    | Requested
    | Exiting

  /** The state in which `end_phase` was entered. */
  datatype Departure = Departure(
    phase: Phase,
    cause: Cause,
    mode: LogoutMode,
    inhibited: bool,
    unresolved: set<Client>,
    outstanding: multiset<Client>,
    postponed: seq<Client>,
    clients: set<Client>,
    lockedDown: bool)

  /** One batch of end-session messages; `outstanding` and `asked` are as they stood when it was sent. */
  datatype Round = Round(
    to: multiset<Client>,
    forceful: bool,
    save: bool,
    last: bool,
    outstanding: multiset<Client>,
    asked: set<Client>)

  /** One startup phase's launches; `waiting` holds the earlier launches still unaccounted for. */
  datatype Launch = Launch(phase: Phase, attempted: set<App>, waiting: set<App>)

  /** `requests` are the requests to end the session since, and including, the one made while running. */
  datatype History = History(
    verdicts: map<Client, Verdict>,
    askedLast: set<Client>,
    departures: seq<Departure>,
    rounds: seq<Round>,
    launches: seq<Launch>,
    waiting: set<App>,
    cancelled: seq<set<Client>>,
    stopped: seq<set<Client>>,
    queries: seq<set<Client>>,
    power: seq<LogoutAction>,
    saves: nat,
    quit: Option<LogoutType>,
    requests: seq<LogoutType>)
  {
    function Unresolved(): (r: set<Client>) {
      set c | c in verdicts && verdicts[c].Open()
    }

    /** A client's verdict changes only if it was queried in this logout. */
    function Rule(c: Client, v: Verdict): (h: History) {
      if c in verdicts then this.(verdicts := verdicts[c := v]) else this
    }

    function Queried(to: set<Client>): (h: History) {
      this.(verdicts := map c | c in to :: Unanswered, askedLast := {}, queries := queries + [to])
    }

    /** A request to end the session; one made while running begins the list anew. */
    function Asks(t: LogoutType, phase: Phase): (h: History) {
      this.(requests := (if phase <= RUNNING then [] else requests) + [t])
    }

    function Answered(c: Client, ok: bool, last: bool): (h: History) {
      Rule(c, if ok then Agreed else Refused).(askedLast := if last then askedLast + {c} else askedLast)
    }

    /** The bus name `bus` lost its owner: every client reached through it is gone. */
    function BusGone(bus: string): (h: History) {
      this.(verdicts := map c | c in verdicts :: if c.bus == Some(bus) then Gone else verdicts[c])
    }
  }

  const EMPTY_HISTORY :=
    History(map[], {}, [], [], [], {}, [], [], [], [], 0, None, [])

  // ---------- The manager's private fields ----------

  datatype Dialog = Dialog(action: LogoutAction, rows: set<nat>)

  datatype Session = Session(
    phase: Phase,
    phaseTimer: bool,
    queryTimer: bool,
    pendingApps: multiset<App>,
    handlers: set<App>,
    logoutMode: LogoutMode,
    logoutType: LogoutType,
    queryClients: multiset<Client>,
    nextQueryClients: seq<Client>,
    dialog: Option<Dialog>,
    confirmation: bool,
    privileges: set<bool>,
    clients: set<Client>,
    inhibitors: map<nat, Inhibitor>,
    nextInhibitor: nat,
    apps: map<App, AppInfo>,
    idleEnabled: bool,
    busDisconnected: bool,
    history: History)

  /** The fields as the object is created, before `csm_manager_start`. */
  function Created(apps: map<App, AppInfo>): (s: Session) {
    Session(STARTUP, false, false, multiset{}, {}, Normal, NoLogout, multiset{}, [], None, false, {}, {},
            map[], 1, apps, false, false, EMPTY_HISTORY)
  }
}
