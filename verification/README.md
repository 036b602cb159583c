# The CAFE session manager, verified

A Dafny model of the desktop session manager and of the startup-applications
capplet that ships with it. The session manager takes a session through six
startup phases, RUNNING, QUERY_END_SESSION, END_SESSION and EXIT. It plays the
session-manager side of the X Session Management Protocol, version 1.0
(section 7, Protocol, and section 9, State Diagrams), and serves the same
purpose to clients on D-Bus.

`dafny verify dfyconfig.toml` checks everything.

## How it is laid out

The manager itself:

- `SessionTypes.dfy`: phases, clients, apps, inhibitors, the environment of an
  event, and the snapshot of the manager's private fields. `History`, part of
  the snapshot, records what a bystander would have seen: verdicts of the
  clients asked, phases ended and why, messages sent, apps launched.
- `SessionSpec.dfy`: each function of `csm-manager.c` as a function from
  snapshot to snapshot.
- `SessionInvariant.dfy`: what holds between any two events.
- `PhaseProofs.dfy`, `ReplyProofs.dfy`, `EventProofs.dfy`: the invariant is
  kept, function by function. `ForwardProofs.dfy`: phases only rise.
- `SessionRuns.dfy`: events, when they can occur, and sequences of them.
- `SessionTheorems.dfy`, `LogoutRounds.dfy`, `ReplyEffects.dfy`,
  `StrandedQuery.dfy`: the results, for every reachable state or every step.
- `EventEffects.dfy`: the same state machine read the other way, as one table
  per field that says which events change it and to what; every step follows
  the tables. `LastingFields.dfy` has the steps of the proof.
- `SessionOutcomes.dfy`: which dialogs appear, whose objection is settled by
  what, when startup waits, and which request a session is quit for.
- `SessionManager.dfy`: the object with its mutable fields. Each method is
  proved equal to its specification, each event handler to keep the invariant.
  Ghost fields log every call that starts an app and every message that got
  through; every method keeps these logs in agreement with the history.
- `SessionLogs.dfy`: what that agreement is, and what follows from it.

Its neighbours, each a class proved against a specification with the results
beside it: `InhibitDialogRows.dfy` (the dialog's rows and the store it
watches), `IdlePresence.dfy` (status and idle watch), `AutostartIndex.dfy` (the
capplet's index of XDG overrides), `XsmpClient.dfy` (the property array),
`ShellQuoting.dfy` (POSIX XCU section 2.2, Quoting), `SignalHandler.dfy` (the
three tables), `StartupIds.dfy` (XSMP section 6, Client Identification String)
and `Registration.dfy`. `Sequences.dfy` has a fact about sequences that several
of them use.

## What the environment decides

One event comes with an `Env`: which messages reach which clients, which apps
start, the lock-down settings, auto-save and the logout prompt. Events may come
in any order and at any time their source allows: a timer must be armed, a
dialog up, a privilege request outstanding. Cookies drawn for inhibitors are
ones no live inhibitor has, which is what the drawing loop ensures.

## Where the code is not what one would expect

The model follows the code. Where a lemma is named, it says what happens for
all inputs or gives one.

- A suspend, hibernate or switch-user dialog that is up when a logout begins is
  reused by it. Once the query timer has gone, answering that dialog, or
  withdrawing the last inhibitor it lists, leaves the query with no timer and
  no dialog. `StrandsIff` says exactly which steps do, `StrandedSince` that
  nothing else does, and `QueriesAreStranded` gives two runs.
- Privilege callbacks and the confirmation dialog check no phase. An answer
  that comes during the query ends it whatever the clients have said:
  `OvertakingEndsQuery`. `RequestsOvertake` gives a run.
- Deleting the system file an app is shown from drops the app even if another
  system directory has a copy; the comment there says no other file is left.
  `DeleteKeepsExactIff`, `VisibleSystemFileLost`.
- The apostrophe inside a quoted argument is written as three apostrophes, not
  as the usual closing, escaped and reopening ones. `RoundTripIff`,
  `ApostropheUnbalanced`.
- Choosing the status IDLE explicitly makes the next activity restore whatever
  the last idle notice overrode, however long ago. `ActivityRestoresIff` says
  exactly when that is the right status, `ChoosingIdleForgets` gives a sequence
  in which it is not.
- The comment on startup ids describes 16 hexadecimal digits, 13 digits of
  milliseconds and a process-type digit. The code writes two numbers of at
  least four hexadecimal digits, seconds and microseconds, and no type digit.
- A comment says the query does not time out unless forced. Its timer is always
  armed and always leads to `query_end_session_complete`.

## Model

| member | source | states |
|---|---|---|
| SessionTheorems.UnforcedLogoutIsUnanimous | cafe-session/csm-manager.c:1377-1397 | Every step from any reachable state that takes a logout out of its query leaves a departure. It was by request if and only if the event is a privilege granted or a request confirmed; otherwise, unless the logout was forced or nobody was connected, it had no LOGOUT inhibitor, nobody outstanding and every queried client agreed, gone or waived. |
| SessionTheorems.OvertakingEndsQuery | cafe-session/csm-manager.c:3046-3074 | A privilege granted or a request confirmed while clients are being asked ends the query with the verdicts as they stand: the callbacks check no phase. |
| SessionTheorems.OtherRequestsStay | cafe-session/csm-manager.c:3046-3074 | No other request event, such as a refused privilege or a confirmation that must first ask for one, leaves the query or touches its timer or dialog. |
| LogoutRounds.RequestsOvertake | cafe-session/csm-manager.c:3548-3593 | That happens: a run with one client connected in which a reboot is asked for, then a logout, and the privilege comes while the client has not answered. |
| SessionTheorems.DeparturesAreJustified | cafe-session/csm-manager.c:533-591 | In every run, each phase ended for a permitted reason only: startup phases by nothing to start, all apps in or timeout; RUNNING by a request without lock-down; the query by consent, force, desertion or a request; END_SESSION by all replies with no inhibitor and nobody postponed, timeout, no clients, force or a request. |
| SessionTheorems.OpenClientsAreCovered | cafe-session/csm-manager.c:1467-1526 | In every reachable unforced query, each client that was asked and has not agreed or gone is in query_clients or has a JIT inhibitor. |
| SessionTheorems.RestStatesAreArmed | cafe-session/csm-manager.c:533-651 | In every reachable state: startup phases have pending apps and an armed timer, RUNNING has no timer, the query has its timer or nobody left to ask, END_SESSION has its timer, EXIT has quit, and app_registered is connected to exactly the pending apps. |
| StrandedQuery.StrandsIff | cafe-session/csm-manager.c:1336-1440 | For every reachable state that is not already a query without timer and dialog, and every event: the step makes it one if and only if the query timer is gone, the dialog is a switch-user, suspend or hibernate one, and the event answers it, withdraws the last inhibitor by its cookie, or is the loss of a bus name that owns every inhibitor, with clients left and none of them on that name. |
| StrandedQuery.StrandedSince | cafe-session/csm-manager.c:1336-1440 | In every run, a query without timer and dialog has been so ever since one such step. |
| StrandedQuery.QueriesAreStranded | cafe-session/csm-manager.c:1399-1403 | Two concrete runs from the creation of the object strand a query: in one an application still inhibits, in the other nothing does any more. |
| StrandedQuery.ResponseRescues | cafe-session/csm-manager.c:2285-2376 | Handling a reply, late ones included, leaves the query with a timer or a dialog, or over. |
| StrandedQuery.DisconnectRescues | cafe-session/csm-manager.c:1790-1857 | So does a disconnection during a logout, also with inhibitors of the client to withdraw. |
| SessionTheorems.LastRoundComesLast | cafe-session/csm-manager.c:838-869 | In every run a last-round message is sent only with nothing outstanding and only to clients that asked to go last in this logout. |
| SessionTheorems.QuitMatchesRequest | cafe-session/csm-manager.c:452-531 | In every reachable EXIT state csm_manager_quit has been called with the type of the last request recorded in this logout, which is not NONE; which event records which type is EventEffects.StepFollowsTables. |
| SessionOutcomes.QuitIsLastAsked | cafe-session/csm-manager.c:452-531 | In every run a session that has exited was quit for the very kind of end that the last event asking for one asked for: a granted reboot reboots, a granted shutdown shuts down, with interaction if that was to be asked for later, the display manager does it if no privilege could be asked for; and the session had been logging out ever since that event. |
| EventEffects.StepFollowsTables | cafe-session/csm-manager.c:2014-2446 | For every state satisfying the invariant and every event: clients, inhibitors, their numbering, logout type, confirmation, privileges asked for, power actions carried out or asked about, cancellations and requests are afterwards what twelve tables say, one per field, which name the events that change the field and to what, and no function of the program. |
| EventEffects.PrivilegesFollow | cafe-session/csm-manager.c:3016-3074 | A privilege granted to reboot requests REBOOT or REBOOT_INTERACT, one to shut down SHUTDOWN or SHUTDOWN_INTERACT, and neither is asked for any longer. |
| EventEffects.RequestPowerFollows | cafe-session/csm-manager.c:3078-3152 | Outside RUNNING nothing; otherwise the privilege to reboot or shut down is asked for, or REBOOT_CDM or SHUTDOWN_CDM is requested. |
| EventEffects.ConfirmationFollows | cafe-session/csm-manager.c:3391-3445 | Each answer of the confirmation dialog requests its own kind of end, asks for its own privilege, or leads to its own power action. |
| EventEffects.SuspendLasts | cafe-session/csm-manager.c:3277-3389 | A suspend, hibernate or switch-user is carried out exactly when nothing inhibits it, suspend and hibernate by the SUSPEND flag and switching by its own, and switching is not locked down; otherwise a dialog about that action is up, unless one is up already. |
| EventEffects.DisconnectedFollows | cafe-session/csm-manager.c:2134-2151 | A client that disconnects leaves the store with its inhibitors and with no other. |
| EventEffects.BusNameLostFollows | cafe-session/csm-manager.c:2014-2033 | A lost bus name takes exactly the clients and inhibitors of that name. |
| EventEffects.BusDisconnectedFollows | cafe-session/csm-manager.c:2035-2057 | Losing the bus takes exactly the clients that came over it, and their inhibitors. |
| EventEffects.ResponseFollows | cafe-session/csm-manager.c:2308-2346 | A refusal adds one LOGOUT inhibitor in the client's name unless forced; any other reply takes the client's inhibitors; a cancellation takes all inhibitors that clients own. |
| EventEffects.InhibitFollows | cafe-session/csm-manager.c:3874-3956 | Inhibit stores one inhibitor with just the cookie, flags and sender given. |
| EventEffects.UninhibitFollows | cafe-session/csm-manager.c:3958-3998 | Uninhibit takes the inhibitor of the cookie and no other. |
| EventEffects.DialogFollows | cafe-session/csm-manager.c:1336-1375 | Accepting a dialog about a power action carries that action out; turning it down does not; turning down one about the session cancels. |
| EventEffects.QueryTimeoutFollows | cafe-session/csm-manager.c:1467-1526 | The query's timeout adds one inhibitor for each silent client, in order, unless forced. |
| EventEffects.FlagsAreBits | cafe-session/csm-inhibitor.h:34-39 | The four inhibitor flags are bits of one word, read independently. |
| LastingFields.BlamedEach | cafe-session/csm-manager.c:1478-1518 | The k-th silent client owns the k-th new inhibitor, with the k-th cookie and its bus name, and the inhibitors from before stay. |
| LastingFields.EndPhaseLasts | cafe-session/csm-manager.c:533-591 | Ending a phase, however many more it ends and starts, touches none of the twelve fields. |
| SessionOutcomes.OnlyTheseSettle | cafe-session/csm-manager.c:1377-1440 | For every reachable state and every event that neither requests nor cancels: a dialog that is up afterwards keeps its label or is labelled with the request being carried out; the mode stays or becomes FORCE; and a client's objection is settled only by its agreement, its leaving, or the withdrawal of its inhibitor by cookie. |
| SessionOutcomes.EndPhaseSteady | cafe-session/csm-manager.c:533-591 | Ending a phase, however many more it ends and starts, never lowers the phase, keeps mode, type and dialog, keeps verdicts and wishes to be last unless a query begins, and saves the session once, exactly when it leaves for EXIT with auto-save on. |
| SessionOutcomes.RequestsSetTheirMode | cafe-session/csm-manager.c:3339-3351 | Logout sets the mode it was called with, Shutdown NORMAL, a confirmed logout NO_CONFIRMATION, and no other request sets one. |
| SessionOutcomes.LastClientLeaving | cafe-session/csm-manager.c:2144-2149 | When the last client leaves during a logout the session exits in that event, whatever inhibits it. |
| SessionOutcomes.StartupWaitsForAll | cafe-session/csm-manager.c:677-762 | A startup phase before APPLICATION waits, with its timer, for exactly its enabled, undelayed apps that start, and goes on at once when there are none; APPLICATION never waits. |
| SessionOutcomes.AppSignalMoves | cafe-session/csm-manager.c:593-611 | In a startup phase a signalled app is waited for no longer, and exactly the last one ends the phase. |
| SessionOutcomes.PhaseTimeoutMoves | cafe-session/csm-manager.c:613-651 | The phase timer ends the phase, and in END_SESSION the session. |
| SessionOutcomes.QueryTimeoutSettles | cafe-session/csm-manager.c:1467-1526 | The query's timeout ends the query unless something inhibits the logout or, unforced, some client stayed silent; then the dialog is up and nobody is asked any longer. |
| SessionOutcomes.DisconnectionIsAReply | cafe-session/csm-manager.c:1835-1857 | During the query a client that disconnects is off the list, or the query is over. |
| SessionOutcomes.DepartureShows | cafe-session/csm-manager.c:533-591 | The departure noted shows the phase, mode, clients, lists, inhibition and unsettled clients of the moment. |
| SessionOutcomes.RoundShows | cafe-session/csm-manager.c:764-836 | A round of end-session messages is noted with its flags and with what was outstanding then. |
| SessionOutcomes.LaunchShows | cafe-session/csm-manager.c:743-750 | A launch is noted with the earlier launches still waited for, and the apps that start join those waited for. |
| SessionTheorems.LockedDownStays | cafe-session/csm-manager.c:558-571 | With logging out locked down, no event leaves RUNNING. |
| SessionTheorems.PhasesRiseOrCancel | cafe-session/csm-manager.c:585-590 | Every event after the first raises the phase by one per departure noted, or is a cancellation that ends in RUNNING. |
| SessionTheorems.CancelRestores | cafe-session/csm-manager.c:1071-1108 | From any state in a logout, cancelling gives RUNNING, mode NORMAL, type NONE, empty lists, no timers, no dialog, the same clients and apps, exactly the inhibitors without a client, the idle setting they imply, and one cancellation that reaches each client it can, which Manager.CancelClients performs. |
| SessionTheorems.QuietUnlessLoggingOut | cafe-session/csm-manager.c:1071-1097 | In every reachable state up to RUNNING there is no JIT inhibitor, no queried or postponed client, and no session-ending dialog. |
| SessionTheorems.StartupIsABarrier | cafe-session/csm-manager.c:677-762 | In every run the startup phases were launched in order, each once and with exactly its eligible apps, and at each launch no earlier launch was still unaccounted for. |
| SessionTheorems.EachAppLaunchedOnce | cafe-session/csm-manager.c:677-741 | Once RUNNING is reached, the history has each enabled, undelayed app attempted in its own phase and in no other. |
| SessionLogs.StartedExactlyOnce | cafe-session/csm-manager.c:677-762 | In every state that satisfies the invariant and whose history agrees with the log of start calls: each app that is enabled, undelayed and of a phase launched so far has been started exactly once, and no other app at all. |
| SessionManager.Manager.EachAppStartedOnce | cafe-session/csm-manager.c:677-762 | The same of the object: every handler keeps the log of real start calls in agreement with the history, so over its whole life each app that was due has been started exactly once and no other. |
| SessionLogs.RoundLogged | cafe-session/csm-manager.c:764-801 | A round of messages, added to the log and to the history, keeps them in agreement: for every kind of message and every client, as many messages logged as the history records. |
| SessionTheorems.CookiesAreDistinct | cafe-session/csm-manager.c:1452-1465 | In every reachable state two different inhibitors have different cookies. |
| SessionTheorems.UninhibitRemovesTheOne | cafe-session/csm-manager.c:3958-3998 | In every reachable state, Uninhibit with an inhibitor's cookie removes that inhibitor and no other, whatever the removal sets off. |
| SessionTheorems.RemovesExactly | cafe-session/csm-store.c:181-214 | Removing inhibitors removes exactly the ones named, even when the removal answers the dialog and ends phases. |
| SessionTheorems.ForcedGainsNoInhibitor | cafe-session/csm-manager.c:1488-1493 | From every reachable forced state no event adds an inhibitor. |
| SessionTheorems.ReachableStep | cafe-session/csm-manager.c:533-591 | What one enabled event makes of a reachable state is reachable. |
| SessionTheorems.StepForward | cafe-session/csm-manager.c:533-591 | Every event but the first and the cancelling ones moves the phase forward, notes one departure per phase, keeps the apps, and adds no inhibitor when forced. |
| SessionTheorems.StepApps | cafe-session/csm-manager.c:677-762 | No event changes the set of apps, so the two results above are about one fixed set. |
| SessionTheorems.EmptyStartup | cafe-session/csm-manager.c:743-762 | Without apps the startup phases fall through to RUNNING, changing neither clients nor inhibitors nor dialog. |
| SessionRuns.StepInv | cafe-session/csm-manager.c:533-651 | Every event that can occur keeps the whole invariant: dialog mirrors store, JIT inhibitors only in a logout, cookies distinct, logout type settled, idle setting right, rounds ordered, departures justified, apps tracked, timers armed, open clients covered. |
| SessionRuns.RunInv | cafe-session/csm-manager.c:533-651 | The invariant holds of every state of every run. |
| SessionInvariant.CreatedInv | cafe-session/csm-manager.c:2823-2880 | The invariant holds of a new manager. |
| LogoutRounds.OnlyRequestsLeaveRunning | cafe-session/csm-manager.c:533-571 | From every reachable state up to RUNNING, no timer, reply, app signal, disconnection, inhibitor or leftover dialog leads beyond RUNNING. |
| LogoutRounds.LogoutAsksEveryClient | cafe-session/csm-manager.c:1528-1557 | Whatever takes a reachable session out of RUNNING enters the query with its timer armed and a set logout type, asks every connected client the message reaches and nobody else, and marks all of them unanswered. |
| LogoutRounds.EndSessionTellsEveryClient | cafe-session/csm-manager.c:803-836 | Leaving the query with clients connected sends exactly one end-session round, to all of them, forceful just when the mode is FORCE, with nothing else outstanding and the phase timer armed. |
| LogoutRounds.LeavingQuits | cafe-session/csm-manager.c:937-954 | Leaving END_SESSION saves just when auto-save is on, has every client that can be reached told to stop once, by Manager.StopClients, and quits with the logout type. |
| ReplyEffects.ReplyMovesQueryOn | cafe-session/csm-manager.c:2285-2350 | A reply during the query takes exactly its client off the list; with others outstanding nothing else happens, and after the last one the query is over, or its timer gone and the dialog up, according to whether anything inhibits. |
| ReplyEffects.ReplyMovesEndSessionOn | cafe-session/csm-manager.c:2285-2376 | A reply during END_SESSION takes exactly its client off the list and postpones it if asked; with others outstanding or something inhibiting nothing else happens; otherwise the postponed get one last round, and without any the session exits. |
| ReplyEffects.TakeReplyTakesOne | cafe-session/csm-manager.c:2308-2346 | Unless it moves the phase on, a reply changes the lists, timers and rounds in nothing but one mention of its client. |
| PhaseProofs.EndPhaseInv | cafe-session/csm-manager.c:533-591 | end_phase, and all it calls, restores the full invariant from what its callers establish. |
| PhaseProofs.StartPhaseInv | cafe-session/csm-manager.c:1572-1625 | start_phase, and all it calls, restores the full invariant. |
| ReplyProofs.CancelInv | cafe-session/csm-manager.c:1071-1108 | Cancelling restores the full invariant from any state in a logout. |
| ReplyProofs.RemoveInv | cafe-session/csm-manager.c:2343-2345 | Removing inhibitors keeps the invariant, including when it answers the dialog and ends a phase in the middle of an event. |
| ReplyProofs.HandleResponseInv | cafe-session/csm-manager.c:2285-2376 | Handling a client's reply keeps the invariant. |
| EventProofs.ClientDisconnectedInv | cafe-session/csm-manager.c:2134-2151 | A client's disconnection keeps the invariant. |
| EventProofs.BusNameLostInv | cafe-session/csm-manager.c:2014-2033 | A lost bus name, with the bulk removal of inhibitors and clients it causes, keeps the invariant. |
| EventProofs.QueryTimeoutInv | cafe-session/csm-manager.c:1467-1526 | The query timeout keeps the invariant. |
| EventProofs.AppSignalInv | cafe-session/csm-manager.c:593-611 | An app's registration or exit keeps the invariant. |
| EventProofs.PhaseTimeoutInv | cafe-session/csm-manager.c:613-651 | The phase timeout keeps the invariant. |
| EventProofs.UninhibitInv | cafe-session/csm-manager.c:3958-3998 | Uninhibit keeps the invariant. |
| ForwardProofs.EndPhaseOnward | cafe-session/csm-manager.c:533-591 | end_phase raises the phase unless the session is over or locked down; the first departure it notes is the state it was called in; it adds no inhibitor. |
| SessionManager.Manager.constructor | cafe-session/csm-manager.c:2823-2880 | A new manager is in the created state, which satisfies the invariant. |
| SessionManager.Manager.HasInhibitor | cafe-session/csm-manager.c:996-1015 | Finds whether some inhibitor carries a flag. |
| SessionManager.Manager.End | cafe-session/csm-manager.c:533-591 | end_phase equals its specification; it terminates because the phase rises. |
| SessionManager.Manager.Begin | cafe-session/csm-manager.c:1572-1625 | start_phase equals its specification. |
| SessionManager.Manager.StartApp | cafe-session/csm-manager.c:677-741 | One app: it is started just when it is enabled, undelayed and of the current phase, and then awaited just when the start succeeds before APPLICATION; the call is logged. |
| SessionManager.Manager.StartEach | cafe-session/csm-manager.c:743-750 | The loop over the app store: the start calls logged list the eligible apps, each once, and no other; those awaited join pending_apps, each once. |
| SessionManager.Manager.StartApps | cafe-session/csm-manager.c:743-750 | The launch recorded in the history is the set of start calls the loop made. |
| SessionManager.Manager.SendToEach | cafe-session/csm-manager.c:770-801 | The loop over the client store: the messages logged are one to each client reached; these clients join query_clients, each once. |
| SessionManager.Manager.SendLast | cafe-session/csm-manager.c:859-865 | The loop over next_query_clients: one message logged per mention of a client it reaches, in order, and these mentions are put back on query_clients. |
| SessionManager.Manager.TellEach | cafe-session/csm-manager.c:1097-1099 | The loops that cancel and stop: the messages logged are one to each client reached, and to no other. |
| SessionManager.Manager.CancelClients | cafe-session/csm-manager.c:1041-1057 | The cancellation recorded in the history is the set of clients the loop reached, each told once. |
| SessionManager.Manager.StopClients | cafe-session/csm-manager.c:937-947 | The stop recorded in the history is the set of clients the loop reached, each told once. |
| SessionManager.Manager.DisconnectEach | cafe-session/csm-manager.c:1909-1937 | The bulk removal visits the clients in turn, each leaving the store after its visit. |
| SessionManager.Manager.DisconnectPending | cafe-session/csm-manager.c:622-634 | The loop disconnects exactly the handlers of the pending apps. |
| SessionManager.Manager.InhibitForEach | cafe-session/csm-manager.c:1478-1518 | The loop adds one inhibitor per silent client, in order. |
| SessionManager.Manager.OnStart | cafe-session/csm-manager.c:1667-1677 | csm_manager_start takes the step specified and establishes the invariant. |
| SessionManager.Manager.OnAppSignal | cafe-session/csm-manager.c:593-611 | An app's "registered" or "exited" takes the step specified and keeps the invariant. |
| SessionManager.Manager.OnPhaseTimeout | cafe-session/csm-manager.c:613-651 | The phase timer takes the step specified and keeps the invariant. |
| SessionManager.Manager.OnQueryTimeout | cafe-session/csm-manager.c:1467-1526 | The query timer takes the step specified and keeps the invariant. |
| SessionManager.Manager.OnClientResponse | cafe-session/csm-manager.c:2378-2392 | A client's reply takes the step specified and keeps the invariant. |
| SessionManager.Manager.OnClientConnected | cafe-session/csm-manager.c:2416-2446 | A new client takes the step specified and keeps the invariant. |
| SessionManager.Manager.OnClientDisconnected | cafe-session/csm-manager.c:2134-2151 | A disconnection takes the step specified, by EventEffects.DisconnectedFollows out of the store, and keeps the invariant. |
| SessionManager.Manager.OnBusNameLost | cafe-session/csm-manager.c:2014-2033 | A lost bus name takes the step specified and keeps the invariant. |
| SessionManager.Manager.OnBusDisconnected | cafe-session/csm-manager.c:2035-2057 | Losing the bus takes the step specified and keeps the invariant. |
| SessionManager.Manager.OnInhibit | cafe-session/csm-manager.c:3874-3956 | Inhibit is refused exactly under a forced logout or for an empty app id, empty reason or zero flags; otherwise one inhibitor with the drawn cookie is added. |
| SessionManager.Manager.FindCookie | cafe-session/csm-manager.c:3970-3973 | Finds the inhibitor carrying a cookie. |
| SessionManager.Manager.OnUninhibit | cafe-session/csm-manager.c:3958-3998 | Uninhibit fails exactly for a cookie no inhibitor has; otherwise it takes the step specified and keeps the invariant. |
| SessionManager.Manager.OnDialogAnswered | cafe-session/csm-manager.c:1336-1375 | An answered dialog takes the step specified and keeps the invariant. |
| SessionManager.Manager.OnLogout | cafe-session/csm-manager.c:3685-3730 | Logout is refused exactly outside RUNNING, under lock-down or for an undefined mode, in that order; otherwise it takes the step specified. |
| SessionManager.Manager.OnShutdown | cafe-session/csm-manager.c:3616-3645 | Shutdown is refused exactly outside RUNNING or under lock-down; otherwise it raises the confirmation dialog. |
| SessionManager.Manager.OnRequestPower | cafe-session/csm-manager.c:3548-3593 | RequestShutdown and RequestReboot are refused exactly outside RUNNING. |
| SessionManager.Manager.OnPrivileges | cafe-session/csm-manager.c:3016-3074 | The answer to a privilege request takes the step specified, whose request EventEffects.PrivilegesFollow gives, and keeps the invariant. |
| SessionManager.Manager.OnConfirmation | cafe-session/csm-manager.c:3391-3445 | The confirmation dialog's answer takes the step specified and keeps the invariant. |
| InhibitDialogRows.BulkMirrors | cafe-session/csm-store.c:158-214 | After a bulk removal's delayed announcements the rows equal what is left in the store, and the dialog has accepted itself, once, exactly when nothing is left. |
| InhibitDialogRows.OnlyTheLastAccepts | cafe-session/csm-store.c:181-214 | Although the table is emptied first, no announcement but the last makes the dialog accept. |
| InhibitDialogRows.AnsweredIsFinal | cafe-session/csm-inhibit-dialog.c:103-122 | An answered dialog ignores the store and further answers. |
| InhibitDialogRows.BulkIsAtomic | cafe-session/csm-inhibit-dialog.c:678-701 | The delayed announcements add up to the one-step removal the session specification uses. |
| InhibitDialogRows.InhibitDialog.constructor | cafe-session/csm-inhibit-dialog.c:837-853 | populate_model gives one row per inhibitor, although it goes through a removing traversal. |
| InhibitDialogRows.InhibitDialog.FindInhibitor | cafe-session/csm-inhibit-dialog.c:131-164 | The search loop finds the first row with the id, or says there is none. |
| InhibitDialogRows.InhibitDialog.OnResponse | cafe-session/csm-inhibit-dialog.c:103-122 | The first answer that is not to lock the screen is passed on as it is and ends the dialog; locking is counted and changes nothing else; an answered dialog changes no more. |
| InhibitDialogRows.AnsweredOnce | cafe-session/csm-inhibit-dialog.c:103-122 | Over any responses, additions and removals the manager gets at most one answer: the user's first that is not to lock, or Accept if the last inhibitor goes before it. |
| InhibitDialogRows.AnswerDecides | cafe-session/csm-manager.c:1336-1375 | Of a dialog about the end of the session: turned down, the logout is taken back; accepted, by the user or by itself, it goes on by force with its type kept. |
| InhibitDialogRows.InhibitDialog.OnInhibitorAdded | cafe-session/csm-inhibit-dialog.c:654-676 | An added inhibitor gets a row unless it has one or the dialog is answered. |
| InhibitDialogRows.InhibitDialog.OnInhibitorRemoved | cafe-session/csm-inhibit-dialog.c:678-701 | A removed inhibitor loses its row, and an empty list accepts. |
| InhibitDialogRows.Store.Add | cafe-session/csm-store.c:236-263 | Adding keeps the mirror; a locked store takes nothing; the dialog is not answered by it. |
| InhibitDialogRows.Store.Remove | cafe-session/csm-store.c:76-106 | Removing keeps the mirror and accepts the dialog exactly when it removed the last inhibitor. |
| InhibitDialogRows.Store.RemoveMatching | cafe-session/csm-store.c:158-200 | The table half of a bulk removal: exactly the matching ids go, and the list built names each once. |
| InhibitDialogRows.Store.ForeachRemove | cafe-session/csm-store.c:181-214 | A bulk removal keeps the mirror and accepts the dialog, once, exactly when it removed something and left nothing. |
| InhibitDialogRows.Store.Announce | cafe-session/csm-store.c:203-211 | The drain loop delivers the announcements in list order. |
| IdlePresence.ExactlyOneWatch | cafe-session/csm-presence.c:152-179 | After any sequence of settings, alarms and screensaver events there is exactly one live watch, the remembered one, when a monitor exists, the screensaver is off, idling is enabled and the timeout is positive; otherwise none. Serial wrap-around included. |
| IdlePresence.WatchFollowsInhibitors | cafe-session/csm-manager.c:1559-1570 | Over every joint run of the manager and the presence from their creation, with any presence events in between: from RUNNING on there is at most one watch, and one exactly when the display can be watched, no inhibitor has the IDLE flag, the screensaver is off and the timeout is positive. |
| IdlePresence.SettingsAgree | cafe-session/csm-manager.c:1559-1570 | After every event of such a run the presence has the idle setting that the manager last derived from its inhibitors. |
| IdlePresence.WaitsForTimeout | cafe-session/gs-idle-monitor.c:421-467 | Both alarms of a watch wait for one millisecond less than the timeout. |
| IdlePresence.NoticesRestore | cafe-session/csm-presence.c:108-136 | From any state, between explicit settings the status is IDLE or one fixed other status, and a notice of activity brings the latter back. |
| IdlePresence.ActivityRestoresIff | cafe-session/csm-presence.c:108-136 | After any events that leave a status other than IDLE: going idle by notice and coming back restores it; choosing IDLE and coming back restores it if and only if it is the status that a notice overrode and nothing has returned to, or AVAILABLE when there is none. The condition is over the events an onlooker sees. |
| IdlePresence.SavedIsOverridden | cafe-session/csm-presence.c:108-136 | What is saved is always what such an onlooker remembers, or AVAILABLE. |
| IdlePresence.ChoosingIdleForgets | cafe-session/csm-presence.c:126-136 | A concrete sequence in which choosing IDLE explicitly brings back an older status. |
| IdlePresence.SyncThere | cafe-session/gs-idle-monitor.c:71-86 | Converting any 64-bit signed integer to an XSyncValue and back gives it again. |
| IdlePresence.SyncBack | cafe-session/gs-idle-monitor.c:71-86 | Converting any XSyncValue to an integer and back gives it again. |
| IdlePresence.IdleMonitor.AddWatch | cafe-session/gs-idle-monitor.c:469-490 | A watch gets the next serial and the given interval. |
| IdlePresence.Presence.SetSessionIdle | cafe-session/csm-presence.c:108-136 | set_session_idle equals its specification. |
| IdlePresence.Presence.ResetIdleWatch | cafe-session/csm-presence.c:152-179 | reset_idle_watch equals its specification. |
| IdlePresence.Presence.OnStatusSet | cafe-session/csm-presence.c:385-401 | csm_presence_set_status takes the step specified and keeps the invariants. |
| IdlePresence.Presence.OnEnabledSet | cafe-session/csm-presence.c:337-352 | csm_presence_set_idle_enabled takes the step specified and keeps the invariants. |
| IdlePresence.Presence.OnTimeoutSet | cafe-session/csm-presence.c:403-417 | csm_presence_set_idle_timeout takes the step specified and keeps the invariants. |
| IdlePresence.Presence.OnAlarm | cafe-session/gs-idle-monitor.c:173-215 | An alarm notifies the presence only if its watch is still there. |
| IdlePresence.EventSets | cafe-session/csm-presence.c:108-210 | By status values: a live watch's alarm of idleness makes the status IDLE and one of activity brings the earlier one back, a dead watch's changes nothing; a screensaver that comes on or goes off does the same; an explicit status or setting is stored as given. |
| IdlePresence.SyncMeans | cafe-session/gs-idle-monitor.c:71-86 | The two words of an XSyncValue are the number's two's complement. |
| IdlePresence.Presence.OnScreensaverChanged | cafe-session/csm-presence.c:181-195 | A screensaver change resets the watch and then sets the status. |
| IdlePresence.Presence.OnScreensaverGone | cafe-session/csm-presence.c:197-210 | A vanished screensaver sets the status and then resets the watch. |
| AutostartIndex.AppManager.Fill | capplet/gsp-app-manager.c:492-525 | After filling, whether for the first time or again, every desktop file name in the known directories has its right entry: first place overall, first system place or G_MAXUINT, and read from the first place; nothing else has one. |
| AutostartIndex.LoadKeepsExact | capplet/gsp-app-manager.c:406-420 | Reading a created or changed file keeps the index exact, and the assertion on the system position holds. |
| AutostartIndex.DeleteKeepsExactIff | capplet/gsp-app-manager.c:292-365 | Deleting a file never trips the assertions, and keeps the index exact if and only if it is not the shown system file with a copy elsewhere. |
| AutostartIndex.EventKeepsExactIff | capplet/gsp-app-manager.c:367-440 | For every monitor event, with unknown directories and other files included: assertions hold, and the index stays exact exactly unless the event is that deletion. |
| AutostartIndex.RunKeepsExact | capplet/gsp-app-manager.c:367-440 | After any sequence of events without such a deletion every entry is right. |
| AutostartIndex.VisibleSystemFileLost | capplet/gsp-app-manager.c:318-324 | A concrete deletion that drops an app although another system directory still has the file. |
| AutostartIndex.NewDirKeepsExact | capplet/gsp-app-manager.c:515-519 | Putting an unread directory at the head of the list disturbs nothing. |
| AutostartIndex.GspApp.Reload | capplet/gsp-app.c:896-1024 | gsp_app_new on a known app: an own change is skipped once; a later or unsaved one only moves the first system place; an earlier one is read and becomes the place shown. Its assertion holds. |
| AutostartIndex.DesktopSuffix | capplet/gsp-app-manager.c:383-390 | Exactly the names that end in .desktop count. |
| AutostartIndex.AppManager.FindApp | capplet/gsp-app-manager.c:572-592 | Finds the app with a basename. |
| AutostartIndex.AppManager.GetDirIndex | capplet/gsp-app-manager.c:199-220 | Finds the place of a directory. |
| AutostartIndex.AppManager.GetDir | capplet/gsp-app-manager.c:222-242 | Finds the directory at a place. |
| AutostartIndex.AppManager.FindDirAfter | capplet/gsp-app-manager.c:244-290 | The minimum search gives the first place after a given one that has the file. |
| AutostartIndex.AppManager.HandleDelete | capplet/gsp-app-manager.c:292-365 | _gsp_app_manager_handle_delete equals its specification; the unreachable assertion is not reached. |
| AutostartIndex.AppManager.ReloadAt | capplet/gsp-app.c:845-858 | gsp_app_reload_at equals its specification. |
| AutostartIndex.AppManager.OnMonitor | capplet/gsp-app-manager.c:367-440 | A monitor event takes the index where the specification says. |
| AutostartIndex.AppManager.FillFromDir | capplet/gsp-app-manager.c:446-490 | The loop over one directory's names makes the index exact for that directory too. |
| AutostartIndex.AppManager.FillRoot | capplet/gsp-app-manager.c:508-521 | A directory met before is skipped, and a new one read. |
| XsmpClient.LastWriterWins | cafe-session/csm-xsmp-client.c:282-308 | A batch sets each property to the last value it gives for it. |
| XsmpClient.OthersKept | cafe-session/csm-xsmp-client.c:282-308 | A batch changes no property it does not mention. |
| XsmpClient.RemoveFastStands | cafe-session/csm-xsmp-client.c:217-247 | Removing by swapping with the last element removes that name from the map and keeps names unique. |
| XsmpClient.StandsForOne | cafe-session/csm-xsmp-client.c:114-137 | The array determines the map it stands for. |
| XsmpClient.XsmpClient.FindProperty | cafe-session/csm-xsmp-client.c:114-137 | The search finds a property exactly when the map has it, and finds the map's value. |
| XsmpClient.XsmpClient.DeleteProperty | cafe-session/csm-xsmp-client.c:217-247 | Deleting is removal from the map; an unknown name changes nothing. |
| XsmpClient.XsmpClient.SetProperties | cafe-session/csm-xsmp-client.c:282-308 | Setting a batch is setting its properties in order in the map. |
| XsmpClient.XsmpClient.DeleteProperties | cafe-session/csm-xsmp-client.c:310-331 | Deleting a batch removes exactly its names from the map. |
| XsmpClient.XsmpClient.CancelEndSession | cafe-session/csm-xsmp-client.c:504-530 | Cancelling resets the save state and tells the client, or fails and changes nothing when the connection is gone. |
| XsmpClient.CancelEach | cafe-session/csm-manager.c:1097-1099 | The loop over the clients cancels for every connected one, once, and leaves the others as they were. |
| ShellQuoting.RoundTripIff | cafe-session/csm-xsmp-client.c:349-392 | For every argument list: a shell reads the command back as that list if and only if no argument is empty or holds an apostrophe or a NUL. |
| ShellQuoting.SplitsBack | cafe-session/csm-xsmp-client.c:349-392 | Without apostrophes and NULs the shell reads back the arguments other than the empty ones. |
| ShellQuoting.PlainStays | cafe-session/csm-xsmp-client.c:359-387 | An argument is left unquoted exactly when it consists of letters, digits and -_=:./ only. |
| ShellQuoting.ApostropheUnbalanced | cafe-session/csm-xsmp-client.c:379-384 | A single apostrophe as argument gives five of them, which leaves a quotation open. |
| ShellQuoting.ReadingCost | cafe-session/csm-xsmp-client.c:379-384 | No reading of a text yields an apostrophe except at the cost of a backslash or double quote. |
| ShellQuoting.ReadingFree | cafe-session/csm-xsmp-client.c:349-392 | Reading invents no character. |
| ShellQuoting.AppendQuoted | cafe-session/csm-xsmp-client.c:359-387 | The inner loops append one value, quoted exactly when it has to be. |
| ShellQuoting.PropToCommand | cafe-session/csm-xsmp-client.c:349-392 | The nested loops compute the specified command text. |
| SignalHandler.RunAgrees | cafe-session/cdm-signal-handler.c:296-455 | After any sequence of additions and removals: an id is in a signal's list, once, exactly when its callback is for that signal; a signal has a saved action exactly when its list is not empty; the system's disposition is the handler then and the original one otherwise. |
| SignalHandler.CaughtWhileRegistered | cafe-session/cdm-signal-handler.c:296-394 | From a new handler, a signal is caught exactly while some callback is registered for it, and is otherwise handled as at first. |
| SignalHandler.ApplyAgrees | cafe-session/cdm-signal-handler.c:328-455 | One addition or removal keeps the tables in agreement. |
| SignalHandler.DeliveryRunsEach | cafe-session/cdm-signal-handler.c:116-148 | One delivery of a signal calls each registered callback that has a function, once, newest first. |
| SignalHandler.DeliveriesRunInTurn | cafe-session/cdm-signal-handler.c:116-148 | Of several signals read at once each is delivered in turn, to all its callbacks that have a function, newest first. |
| SignalHandler.FirstMatchIsNewest | cafe-session/cdm-signal-handler.c:411-438 | The search by function finds the newest matching callback. |
| SignalHandler.Handler.CatchSignal | cafe-session/cdm-signal-handler.c:296-312 | Catching saves the present disposition and installs the handler. |
| SignalHandler.Handler.UncatchSignal | cafe-session/cdm-signal-handler.c:314-326 | Uncatching restores the saved disposition and forgets it. |
| SignalHandler.Handler.AddCallback | cafe-session/cdm-signal-handler.c:328-357 | The new id was unused, only its callback is added, and the tables agree. |
| SignalHandler.Handler.RemoveCallback | cafe-session/cdm-signal-handler.c:375-409 | Exactly the callback with the id goes; an unknown id is ignored; the tables agree. |
| SignalHandler.Handler.FindByFunc | cafe-session/cdm-signal-handler.c:411-438 | The search loop equals its specification. |
| SignalHandler.Handler.RemoveByFunc | cafe-session/cdm-signal-handler.c:440-455 | If some callback matches, exactly the newest match goes; otherwise nothing does. |
| SignalHandler.Handler.RunLists | cafe-session/cdm-signal-handler.c:116-148 | The nested loops call the callbacks in list order and report whether one returned false. |
| SignalHandler.Handler.OnSignals | cafe-session/cdm-signal-handler.c:101-174 | Signals are masked during the callbacks and as before afterwards; the watch is kept exactly when no callback returned false. |
| SignalHandler.Handler.BlockSignalsPush | cafe-session/cdm-signal-handler.c:77-88 | Signals are masked while any block is open. |
| SignalHandler.Handler.BlockSignalsPop | cafe-session/cdm-signal-handler.c:90-99 | The mask goes when the last block closes. |
| StartupIds.ReadsBack | cafe-session/csm-util.c:429-438 | The id determines its seconds, microseconds, sequence number and process id, although the microseconds vary in width. |
| StartupIds.AddressReadsBack | cafe-session/csm-util.c:429-438 | It begins with "10" and both random numbers in hexadecimal, at least four digits each. |
| StartupIds.CollideIff | cafe-session/csm-util.c:390-438 | Two calls of one process give the same id if and only if they share second and microsecond and are a multiple of 10000 calls apart. |
| StartupIds.DecimalValue | cafe-session/csm-util.c:431-437 | printf's padded decimal reads back as the number. |
| StartupIds.DecimalWidth | cafe-session/csm-util.c:431-437 | A number that fits the precision takes exactly that many digits. |
| StartupIds.Generator.Generate | cafe-session/csm-util.c:390-438 | Each call uses the next sequence number modulo 10000 and the random numbers and process id of the first call. |
| Registration.NoSharedStartupId | cafe-session/csm-manager.c:2153-2215 | Through any connections, registrations over D-Bus and XSMP and departures in any phases, no two stored clients share a non-empty startup id. |
| Registration.RunKeepsDistinct | cafe-session/csm-manager.c:3765-3815 | Any such sequence keeps the ids distinct. |
| Registration.ArriveKeepsDistinct | cafe-session/csm-manager.c:3765-3787 | Each arrival or departure keeps the ids distinct. |
| Registration.Registry.IsTaken | cafe-session/csm-manager.c:2118-2132 | Finds whether a stored client has a given non-empty id. |
| Registration.Registry.RegisterRequest | cafe-session/csm-manager.c:2153-2215 | A former id that is known and free is kept, no id gets the generated one; each refusal has exactly its condition: a logout, a taken id, an id of no app, looked for among the pending apps before APPLICATION and among all afterwards. |
| Registration.Registry.OnXsmpRegister | cafe-session/csm-xsmp-client.c:1091-1152 | An XSMP registration is refused exactly during a logout or for a former id that is taken or belongs to no app; an accepted client is stored under its former id, or the generated one if it had none; no other client's id changes. |
| Registration.Registry.OnDbusRegister | cafe-session/csm-manager.c:3732-3836 | A D-Bus registration is refused exactly during a logout, for a taken id, or when no client could be made, in that order; otherwise the client is stored under its own id, or the generated one if it has none. |

## Left out

- SessionTheorems.UnforcedLogoutIsUnanimous: a client counts as asked if the message reached it, as gone once its connection or bus name is lost, and as waived once someone withdraws its JIT inhibitor by cookie. A request granted or confirmed during the query is an exception the code makes.
- SessionTheorems.EachAppLaunchedOnce: it speaks of apps of the phases INITIALIZATION to APPLICATION; the manager skips STARTUP, so an app of that phase is never launched.
- SessionManager.Manager.EachAppStartedOnce: it counts the starts that `_start_app` makes; restarts, and starts by a condition or a delay timer, are not part of this model.
- AutostartIndex.RunKeepsExact: monitor events arrive in step with the file system, every desktop file loads and is meant for this desktop, and no save is pending; saving from the capplet is not part of this model.
- ShellQuoting.RoundTripIff: the reader knows quoting, blanks and words; a text that asks a shell for anything else, such as an expansion, has no reading.
- StartupIds.CollideIff: one process whose first random number is not zero, and seconds of at most ten digits.
- Registration.NoSharedStartupId: generated ids are taken to be ones no stored client has.
- SessionTheorems.RestStatesAreArmed: of the query it says only that with the timer gone nobody is left to ask; whether a dialog is up then is the subject of `StrandedQuery.StrandsIff`.
- D-Bus, ICE, X11, GTK, GSettings, systemd, ConsoleKit and display-manager traffic: only whether a message got through, and the settings, as booleans of the environment.
- Restarting apps after a disconnection, apps started by a condition or after a delay, and client status and app ids.
- `shutdown_cb`, which sets EXIT from outside the machine.
- The XSMP SaveYourself queue, the interaction protocol and the client description.
- Saving in the capplet, and which fields of a desktop file an app shows.
- The answer of the confirmation dialog while the logout mode is not NORMAL: the code stops the process on an assertion there, so the event does not occur in the model.
- Hash-table order: lists that depend on it are compared as multisets, or the order is a parameter of the event.
- The range of random cookies, serial wrap-around of inhibitor and callback ids, and memory management.
- Signal callbacks that add or remove callbacks while being called, and the fatal signals that end the process in the handler itself.
- Whether the session type forbids saving: part of the auto-save boolean.
