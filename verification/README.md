# EVtivity, verified

A Dafny model of the stateful and algorithmic core of EVtivity, an OCPP charging
station management system, and proofs of what that core is for. It covers:

* **Composite schedules** (use case K08 of OCPP 2.1 Part 2): the limit that stacked
  charging profiles give at every millisecond is the specification; the program that
  looks only at computed breakpoints and merges equal neighbours is proved to say
  exactly that. Also: which profiles it works for (an exact condition), that the
  answer is unique, canonical, independent of the order of the profiles and of how a
  window is cut, and how it behaves under conversion between amperes and watts.
* **The OCPP client**: calls, sockets and the reconnect loop as a machine of atomic
  events, with theorems over all interleavings: calls are settled exactly once, there
  is one reconnect loop, a replaced socket changes nothing, and the exact moments at
  which calling `connect()` can leave the client without a way back, or a promise that
  is never settled.
* **Chaos journeys and orchestrator**: depot nights and public sessions, with the
  shared bookkeeping of cards and vehicles over whole runs.
* **Reconciliation, clock alignment, metering**: the simulator manager against the
  station rows, the aligned schedule of meter values, conservation of energy.
* **Scanners, check digits and a printer**: the linear PEM scan against its quadratic
  meaning, Luhn and IBAN check digits, PostgreSQL array literals and their reader.

Objects that the source updates in place are classes here. Each method of a class is
proved to do exactly a step of a specification function, and the theorems are about
runs of those steps. Times are integer milliseconds, limits and energies are reals.

`dafny verify dfyconfig.toml` checks the whole project.

## What the code does that its documentation does not say

* A recurring profile whose schedule has no period at 0 (and whose duration or another
  period does not fall on the recurrence) changes at a boundary the breakpoints do not
  list, and the composite then keeps the old limit (packages/css/src/composite-schedule.ts:187-190).
  `CompositeRefinement.Seamless` is the condition, on the profile alone: its occurrence
  starts are listed or change nothing, or none of them has the profile valid on both
  sides. For profiles whose anchor does not fall back to the start of the window it is
  exact, for the profile (`CompositeRefinement.SeamlessIsExact`) and for what is emitted
  (`CompositeExactness.OutputIsExact`); `CompositeTheorems.UnlistedBoundaryIsMissed` is a
  concrete schedule that misses a boundary.
* A connect failure is reported to the waiting promise only while the client does not
  count as connected (packages/css/src/ocpp-client.ts:382-389), and an `open` event
  sets `connected` whichever socket it comes from. Two failures follow, each with its
  own exact condition. A `connect()` called while a reconnect loop runs, or while
  another socket is connecting, can leave the loop waiting for ever: the guard (no loop,
  no socket connecting) excludes exactly that (`OcppClientConnect.ConnectNeverSticksExactly`;
  three runs from the initial state end stuck). Under that guard the promise that the call
  returns can still stay unsettled for ever, exactly when the client counts as connected
  at the call (`OcppClientPromises.OwnConnectHangsExactly`), as it does when a station goes
  offline and comes back before its old socket has closed
  (`OcppClientPromises.HungRunAfterDisconnect`). That no connect promise hangs, the
  caller's or the loop's, whatever but another `connect()` is called later, takes a
  stronger guard: no loop and every socket closed. It is exact too
  (`OcppClientPromises.IdleConnectSettlesExactly`).
* Recorded depot actions do not always go round plug in, start, stop, unplug: a skipped
  step takes the journey forward without an action
  (packages/css/src/chaos-journey.ts:330-368). `DepotJourneyRuns.RecordedActionsGoRound`
  states exactly when the cycle is kept.
* `stop()` of the simulator manager clears the simulators and leaves their scheduler
  registrations (packages/css/src/simulator-manager.ts:124-134), so after a restart a
  registration can outlive its station (`SimulatorManagerRuns.RegistrationOutlives`).
  `SimulatorManagerTheorems.RegistrationsExactly` and `RegistrationsAfterRows` state
  exactly when registrations and simulators agree after a sync.
* A station that loses its row while it runs gets a fresh budget of heals when the row
  returns (packages/css/src/simulator-manager.ts:425-437): `SimulatorManagerTheorems.HealsAreBudgeted`
  is the bound that holds, and `SimulatorManagerRuns.BudgetIsAttained` reaches it for every
  number of removals.
* A public start marks the card as in use before it is published
  (packages/css/src/chaos-orchestrator.ts:968-985), so a card is in use without a start
  having been sent exactly when that publish failed
  (`ChaosOrchestratorSessions.HeldCardWasStarted`).
* A public stop or unplug releases the station and its card before it is published
  (packages/css/src/chaos-orchestrator.ts:972-976), so they are free even when that publish
  failed and the station was told nothing (`ChaosOrchestratorCards.FailedEnd`).
* The waits between the steps of a public session bind due steps only
  (`ChaosOrchestratorSessions.DueStepFollowsLastMove`): a random pick can start a session
  one second after its plug-in (`ChaosOrchestratorExamples.RandomStepsAreNotSpaced`).
* The rearrangement of an IBAN takes its fourth and fifth character apart, so a swap of the
  two goes unfound when the digits behind the first are a multiple of 96
  (`CheckDigits.IbanFindsSwap`, if and only if; `CheckDigits.SwapUnfound` is a family of such
  texts). The check itself sets no length; in the 34 characters that the IBAN pattern
  allows at most (packages/ai/src/redact.ts:232) it cannot happen.

## Model

| member | source | states |
|---|---|---|
| CompositeProgram.ActivePeriod | packages/css/src/composite-schedule.ts:107-130 | the loop over a schedule's periods finds the period in force at the instant: validity, occurrence, duration and conversion included, and none where one of them rules it out |
| CompositeProgram.PurposeLimit | packages/css/src/composite-schedule.ts:146-166 | the loop returns the period of the winning profile of a purpose |
| CompositeProgram.Starts | packages/css/src/composite-schedule.ts:181-186 | the first occurrence and every recurrence of it before the end of the window, each once, nothing else |
| CompositeProgram.ProfilePoints | packages/css/src/composite-schedule.ts:176-191 | exactly the instants inside the window at which this profile is looked at: its validity bounds, and every period start and duration of every occurrence |
| CompositeProgram.Breakpoints | packages/css/src/composite-schedule.ts:169-193 | an ascending list of exactly the instants at which a profile is looked at |
| CompositeProgram.LevelNow | packages/css/src/composite-schedule.ts:207-217 | the limit and phases computed at one breakpoint are the level of that instant |
| CompositeProgram.ComputeCompositeSchedule | packages/css/src/composite-schedule.ts:195-223 | the merged periods are a composite schedule: never empty, first at 0, no two equal neighbours, rounded starts, and at every breakpoint the level in force |
| CompositeProgram.LimitNowW | packages/css/src/composite-schedule.ts:230-254 | the answer is the level of `now` in watts, clamped at 0, and null for no limit |
| CompositeMeaning.ActiveExactly | packages/css/src/composite-schedule.ts:71-130 | a profile is active with a period exactly when its fields say so: inside its validity, in the occurrence anchored at the transaction, its start, when it was set or now, before its duration, with the last listed period that has started, in the unit asked for (in amperes to the nearest tenth) |
| CompositeMeaning.OthersDoNotMatter | packages/css/src/composite-schedule.ts:132-143 | invalidated profiles, those of another EVSE (for EVSE 0: of any EVSE) and TxProfiles of another transaction or of one while none runs can be removed, added or altered: every level and every composite stay the same |
| CompositeMeaning.OthersCanBeRemoved | packages/css/src/composite-schedule.ts:195-201 | so the input with all of them removed has the same levels and the same composite |
| CompositeMeaning.ProfileBounds | packages/css/src/composite-schedule.ts:145-217 | a profile that matters, says something and is alone at the top of its purpose bounds the limit from above, and a transaction profile gives the phases: one for the station or for external constraints, a TxProfile of the running transaction or of any, a TxDefaultProfile while no such TxProfile speaks |
| CompositeMeaning.LimitHasCause | packages/css/src/composite-schedule.ts:145-217 | a limit other than the local one is what a profile at the top of such a purpose says |
| CompositeMeaning.AnswerIsBounded | packages/css/src/composite-schedule.ts:230-254 | the limit answered in watts is never negative, never above what such a profile says, and zero when that asks for discharging |
| CompositeMeaning.AnswerIsClamped | packages/css/src/composite-schedule.ts:251-254 | the answer is none exactly for no limit, else the limit or zero, whichever is greater |
| CompositeRefinement.CompositeRefines | packages/css/src/composite-schedule.ts:195-223 | the fast form refines the slow one: when every applicable profile is seamless, the last period at or before any millisecond of the window carries exactly the level of that millisecond |
| CompositeRefinement.SeamlessIsExact | packages/css/src/composite-schedule.ts:71-130 | an anchored profile, with or without validity bounds, changes only at breakpoints, whatever window is asked for, if and only if it is seamless: no occurrence start inside its validity is both unlisted and a change |
| CompositeRefinement.CrossesStartExactly | packages/css/src/composite-schedule.ts:71-92 | the one occurrence start that the condition looks at decides whether any occurrence start has the profile valid on both sides |
| CompositeExactness.OutputIsExact | packages/css/src/composite-schedule.ts:169-223 | about the output: for an anchored profile of a purpose that counts, with non-negative starts, the composite of the profile alone says the level of every instant of every window if and only if the profile is seamless |
| CompositeExactness.HarmIsEmitted | packages/css/src/composite-schedule.ts:187-190 | for every such profile that is not seamless, every composite of the second before its open start is wrong on that start |
| CompositeExactness.CompositeExists | packages/css/src/composite-schedule.ts:195-223 | every input has a composite schedule |
| CompositeRefinement.StartsAtZeroIsSeamless | packages/css/src/composite-schedule.ts:183-190 | non-negative starts, and a period at 0 when the schedule recurs, are enough |
| CompositeRefinement.PurposeIsWinner | packages/css/src/composite-schedule.ts:145-166 | the limit of a purpose is that of the active profile with the greatest stack level, EVSE-specific before EVSE 0, first in the list on ties |
| CompositeRefinement.PurposeHasLimit | packages/css/src/composite-schedule.ts:151-165 | a purpose has a limit exactly when one of its profiles is active |
| CompositeRefinement.PurposeReorder | packages/css/src/composite-schedule.ts:146-166 | two lists of the same profiles give the same limit when their ranks are distinct |
| CompositeTheorems.CompositeUnique | packages/css/src/composite-schedule.ts:206-222 | an input has one composite schedule |
| CompositeTheorems.LevelIsMinimum | packages/css/src/composite-schedule.ts:207-217 | the limit is the least of the local limit and the limits that count, and is one of them; a TxProfile hides the TxDefaultProfile |
| CompositeTheorems.CompositeIsCanonical | packages/css/src/composite-schedule.ts:195-223 | the output is not empty, starts at 0, repeats no neighbour, never exceeds the local limit, and each start is within half a second of its breakpoint and not before the one before it |
| CompositeTheorems.WholeSecondStart | packages/css/src/composite-schedule.ts:220 | with whole-second anchors a period's start is exact |
| CompositeTheorems.WholeSecondsIncrease | packages/css/src/composite-schedule.ts:220 | with whole-second anchors the starts strictly increase and stay below the duration |
| CompositeTheorems.OutputRefines | packages/css/src/composite-schedule.ts:195-223 | the refinement read off the output alone: the last emitted start at or before an offset gives the level there |
| CompositeTheorems.WholeSecondOutputRefines | packages/css/src/composite-schedule.ts:195-223 | the same, with whole-second anchors and validity bounds as the hypothesis |
| CompositeTheorems.CompositeReorder | packages/css/src/composite-schedule.ts:195-223 | the whole composite does not change when the profiles are reordered, ranks being distinct |
| CompositeTheorems.WindowDenotesLevel | packages/css/src/composite-schedule.ts:71-84 | with anchors that do not fall back to `now`, a composite asked for any window says at each instant the level of that instant |
| CompositeTheorems.WindowsAgree | packages/css/src/composite-schedule.ts:195-223 | cutting a window in two gives the same step function as the whole window |
| CompositeTheorems.LookAheadAgrees | packages/css/src/composite-schedule.ts:230-254 | the limit asked for at a later moment is the one an earlier look-ahead gave for it, clamped at 0 |
| CompositeTheorems.NoLimitExactly | packages/css/src/composite-schedule.ts:251 | no limit is answered exactly when no profile that counts is active |
| CompositeTheorems.UnlistedBoundaryIsMissed | packages/css/src/composite-schedule.ts:187-190 | a concrete recurring profile without a period at 0: the composite of ten seconds around midnight says the old limit after it changed |
| CompositeUnits.AmpsRoundTrip | packages/css/src/composite-schedule.ts:95-104 | an ampere limit with one decimal survives the way through watts and back |
| CompositeUnits.WattsRoundTrip | packages/css/src/composite-schedule.ts:95-104 | a watt limit comes back from amperes within a twentieth of the factor |
| CompositeUnits.CompositeInAmps | packages/css/src/composite-schedule.ts:195-223 | for profiles in watts with uniform phases, seamless in watts, the composite emitted in amperes is at every instant of the window the rounding of the composite emitted in watts |
| OcppClientSafety.RunKeepsInv | packages/css/src/ocpp-client.ts:183-575 | in every state of every run: a call is pending exactly while its promise is unsettled and its timer armed, at most one loop runs, `reconnecting` says whether it does, and the loop waits for an unsettled connect |
| OcppClientSafety.SettledOnce | packages/css/src/ocpp-client.ts:409-448 | over every run a settled call keeps its outcome |
| OcppClientSafety.AnswerSettlesOwnCall | packages/css/src/ocpp-client.ts:588-613 | a CALLRESULT or CALLERROR settles the pending call with its own id with its own content, and no other; one for an unknown id changes nothing |
| OcppClientSafety.NothingLeftUnsettled | packages/css/src/ocpp-client.ts:477-526 | disconnect, connection loss and the start of a reconnect loop leave no call unsettled, no call pending and no timer armed |
| OcppClientCalls.CallIsSent | packages/css/src/ocpp-client.ts:409-448 | a new call waits, pending and timed, exactly when it can be sent and the current socket is open while connected; without one it is rejected as not connected, an undefined message is rejected, one with nothing to send is resolved with the empty answer, and nothing else changes |
| OcppClientCalls.EndedIsNotOpen | packages/css/src/ocpp-client.ts:241-254 | from the moment the current socket is ending, fails, closes or is dropped no call can be sent, even before its close is handled |
| OcppClientCalls.WaitingStep | packages/css/src/ocpp-client.ts:431-526 | what each event makes of a waiting call: the outcome of its answer, error, timer or failed send, of a disconnect, a loss or the start of a reconnect loop; any other event leaves it waiting |
| OcppClientCalls.SentCallWaits | packages/css/src/ocpp-client.ts:431-448 | in every run a call that was sent waits until one of these events |
| OcppClientCalls.FirstEventDecides | packages/css/src/ocpp-client.ts:588-613 | in every run the first of these events decides the outcome for good; an answer that comes first resolves the call with exactly its payload |
| OcppClientCalls.OutcomeHasCause | packages/css/src/ocpp-client.ts:409-526 | in every run each outcome of a call was given by such an event, or at once when it was refused or had nothing to send |
| OcppClientCommands.DisconnectStaysDown | packages/css/src/ocpp-client.ts:477-489 | after a disconnect, whatever happens short of a `connect()`, no socket is made, no loop started and no connection open |
| OcppClientCommands.NextLoopStartsWithDelay | packages/css/src/ocpp-client.ts:511-545 | in every run the first loop after `reconnectNow()` takes the delay that was given as its first wait, zero for a negative one, and its back-off starts afresh |
| OcppClientRecovery.OrderlyRunNeverStuck | packages/css/src/ocpp-client.ts:347-391 | in no run that calls `connect()` only with no loop running and no socket connecting is the client ever stuck; with every socket closed its loop is running |
| OcppClientRecovery.OrderlyComesBack | packages/css/src/ocpp-client.ts:517-575 | from every such state that is meant to be connected, events of the network and the timers alone can lead to an open connection |
| OcppClientRecovery.StuckStays | packages/css/src/ocpp-client.ts:367-389 | no event of the network, of a timer or of a call gets a stuck client out |
| OcppClientRecovery.StuckNeverConnects | packages/css/src/ocpp-client.ts:251-254 | whatever the network does, a stuck client never has an open connection again |
| OcppClientConnect.ConnectNeverSticksExactly | packages/css/src/ocpp-client.ts:313-391 | in an orderly client the guard (no loop, no socket connecting) holds if and only if no course of the network after `connect()` ends in a stuck client; it says nothing of the promise the call returns |
| OcppClientPromises.OwnConnectHangsExactly | packages/css/src/ocpp-client.ts:347-389 | under that guard some course of the network leaves the promise that the call returns unsettled with its socket closed if and only if the client counts as connected at the call |
| OcppClientPromises.HungRunAfterDisconnect | packages/css/src/ocpp-client.ts:477-489 | from the initial state: connected, disconnected and connected again before the old socket closes has such a course |
| OcppClientPromises.HungForEver | packages/css/src/ocpp-client.ts:351-389 | no event, of the network or of a caller, settles such a promise later |
| OcppClientPromises.IdleRunSettles | packages/css/src/ocpp-client.ts:347-391 | in no run that calls `connect()` only with no loop running and every socket closed does a connect promise hang, the caller's or the loop's, disconnects and losses included |
| OcppClientPromises.IdleConnectSettlesExactly | packages/css/src/ocpp-client.ts:347-391 | in every state of such a run that guard holds if and only if no course after a `connect()`, without a further one, leaves any connect promise hung |
| OcppClientConnect.ConnectWhileSleeping | packages/css/src/ocpp-client.ts:551-566 | the failing course when the loop sleeps: the new socket opens, then the loop's own socket fails unreported |
| OcppClientConnect.ConnectWhileAwaiting | packages/css/src/ocpp-client.ts:558-571 | the failing course when the loop waits for its own socket |
| OcppClientConnect.ConnectWhileConnecting | packages/css/src/ocpp-client.ts:347-390 | the failing course when another socket is still connecting |
| OcppClientConnect.StuckRunWhileConnecting | packages/css/src/ocpp-client.ts:347-390 | from the initial state: a second `connect()` right after the first has a course of the network that ends stuck |
| OcppClientConnect.StuckRunWhileSleeping | packages/css/src/ocpp-client.ts:551-566 | from the initial state: so has a `connect()` after the first connection failed, while the loop sleeps |
| OcppClientConnect.StuckRunWhileAwaiting | packages/css/src/ocpp-client.ts:558-571 | from the initial state: so has one after the loop woke, while it waits for its own socket |
| OcppClientObject.OcppClient.SendCall | packages/css/src/ocpp-client.ts:409-448 | in place: the call is refused, answered at once, or pending with its timer, and the invariant is kept |
| OcppClientObject.OcppClient.RejectAll | packages/css/src/ocpp-client.ts:480-484 | the loop over the pending map rejects every pending call, clears its timer and empties the map |
| OcppClientObject.OcppClient.HandleResult | packages/css/src/ocpp-client.ts:589-599 | in place: the step of a CALLRESULT |
| OcppClientObject.OcppClient.HandleCallError | packages/css/src/ocpp-client.ts:602-613 | in place: the step of a CALLERROR |
| OcppClientObject.OcppClient.OnTimeout | packages/css/src/ocpp-client.ts:433-436 | in place: the call leaves the map and is rejected, if it still waits |
| OcppClientObject.OcppClient.OnSendError | packages/css/src/ocpp-client.ts:440-446 | in place: the call leaves the map, its timer is cleared, and it is rejected, if it still waits |
| OcppClientObject.OcppClient.Connect | packages/css/src/ocpp-client.ts:343-349 | in place: a new current socket, reconnection turned on again |
| OcppClientObject.OcppClient.Disconnect | packages/css/src/ocpp-client.ts:477-489 | in place: the step of a disconnect |
| OcppClientObject.OcppClient.SimulateConnectionLoss | packages/css/src/ocpp-client.ts:494-504 | in place: the step of a connection loss |
| OcppClientObject.OcppClient.ReconnectNow | packages/css/src/ocpp-client.ts:511-515 | in place: the step of a reconnect without back-off, nothing without a socket |
| OcppClientObject.OcppClient.OnOpen | packages/css/src/ocpp-client.ts:351-357 | in place: the step of an open socket, the loop that waited for it done |
| OcppClientObject.OcppClient.OnClose | packages/css/src/ocpp-client.ts:367-380 | in place: the step of a closed socket |
| OcppClientObject.OcppClient.Reconnect | packages/css/src/ocpp-client.ts:517-551 | in place: the loop up to its first wait, nothing when one runs |
| OcppClientObject.OcppClient.OnError | packages/css/src/ocpp-client.ts:382-389 | in place: the step of a failed socket, the loop that waited for it on its next turn |
| OcppClientObject.OcppClient.OnWake | packages/css/src/ocpp-client.ts:551-559 | in place: the loop after its wait |
| OcppClientWaits.RunWaitsAreDrawn | packages/css/src/ocpp-client.ts:528-551 | in every state of every run each wait the loop took is drawn for its own back-off attempt, the attempt after `reconnectNow()` taking its own delay and not being counted |
| OcppClientWaits.RunTotalWait | packages/css/src/ocpp-client.ts:528-551 | in every state of every run with a constant back-off, the waits a loop has logged for its back-off attempts sum to at least the doubled minima, a geometric sum, and at most a random range more for each |
| ReconnectBackOff.BackOffWaitBounds | packages/css/src/ocpp-client.ts:170-173 | a back-off wait lies between its doubled minimum and that plus the random range |
| ReconnectBackOff.OwnWaitBounds | packages/css/src/ocpp-client.ts:174-180 | without a back-off a wait is the doubled delay and up to a fifth of it, so at least 2 s and at most 1.2 times five minutes, plus the first attempt's spread |
| ReconnectBackOff.OwnDelayDoubles | packages/css/src/ocpp-client.ts:174-177 | the own delay doubles until five minutes |
| ReconnectBackOff.GeometricClosedForm | packages/css/src/ocpp-client.ts:164-181 | the sum of the doubled minima in closed form |
| ReconnectBackOff.LeastTotalIsGeometric | packages/css/src/ocpp-client.ts:164-181 | the least total wait: a geometric sum up to the repeat limit, linear after it |
| ReconnectBackOff.TotalWaitBounds | packages/css/src/ocpp-client.ts:528-545 | waits drawn for the attempts 0 to n-1 of one back-off sum to at least the least total and at most n random ranges more |
| DepotJourneyModel.ArrivalIsNotInThePast | packages/css/src/chaos-journey.ts:151-169 | on any calendar, an arrival is never before now |
| DepotJourneyModel.ArrivalIsInWindow | packages/css/src/chaos-journey.ts:151-169 | the arrival is on the first evening whose window is not over: for a late draw in the two hours after 23:00, for any other between 19:00 and 23:00; without such an evening it is now |
| DepotJourneyModel.DepotArrivalDeadline | packages/css/src/chaos-journey.ts:172-178 | the deadline is the end of the first late period not over at the arrival, or two hours after it without one, and never before it, on any calendar |
| DepotJourneyModel.DepotDepartureAt | packages/css/src/chaos-journey.ts:186-196 | the departure is after the arrival: the scheduled one when that is, else the first 06:00 after it, or a day later without one |
| DepotJourneyRuns.NightKeepsInv | packages/css/src/chaos-journey.ts:240-399 | over every run in which steps are taken only when due: away means no vehicle and not due after the deadline, plugged means a vehicle whose departure is after its arrival, charging means not due before the departure, and each journey is where its recorded actions and skips put it |
| DepotJourneyRuns.RecordedActionsGoRound | packages/css/src/chaos-journey.ts:290-368 | the next recorded action is the successor of the last one in the cycle if and only if the skips in between took the journey forward by whole rounds |
| DepotJourneyRuns.StopCanFollowUnplug | packages/css/src/chaos-journey.ts:333-343 | the failing case, as a night from the beginning on any calendar: after a whole visit a session somebody else started is taken over, and a stop follows the unplug |
| DepotJourneyRuns.StartFollowsPlugIn | packages/css/src/chaos-journey.ts:290-310 | a start is recorded only directly after the plug-in of the vehicle that is there |
| DepotJourneyRuns.NoStopBeforeDeparture | packages/css/src/chaos-journey.ts:304-317 | no stop is taken or skipped before the departure, which is after the vehicle's arrival |
| DepotJourneyTimes.StopIsDueExactly | packages/css/src/chaos-journey.ts:304-317 | in every night, after a start was recorded or taken over and while no other event of the station follows, the stop is due at an instant if and only if that is at or after both the start and the departure |
| DepotJourneyTimes.LastEventSetsDue | packages/css/src/chaos-journey.ts:290-368 | in every night a journey is as the last event of its station left it: due 5 to 30 s after a plug-in, 10 to 60 s after a stop, 30 to 60 s after a step put off, at once after a stop passed over, at the next 06:00 for a session taken over, at an arrival of the calendar when it is away |
| DepotJourneyTimes.VehicleLeavesOnSchedule | packages/css/src/chaos-journey.ts:186-196 | in every night a vehicle at a station keeps the departure of its arrival: its own scheduled one if that was to come, else the first 06:00 after the arrival |
| DepotJourneyTimes.TimesAreSpread | packages/css/src/chaos-journey.ts:151-169 | every millisecond of a wait, and of an arrival window to come, is what some draw gives |
| DepotJourneyRuns.BlockedBayIsGivenUp | packages/css/src/chaos-journey.ts:345-353 | a plug-in put off in the last 30 s before the deadline, or later, ends the wait: the next vehicle comes back |
| DepotJourneyRuns.WaitIsBounded | packages/css/src/chaos-journey.ts:345-353 | over every run of retries of a blocked bay there are at most (deadline - arrival) / 30 s of them |
| DepotJourneyRuns.WaitGoesOn | packages/css/src/chaos-journey.ts:345-353 | after every retry the vehicle still waits for the same deadline and is due no later |
| DepotJourneysObject.DepotJourneys.NextDue | packages/css/src/chaos-journey.ts:259-264 | the station named is the first one due in insertion order, with its own next action; none is named exactly when none is due |
| DepotJourneysObject.DepotJourneys.Ensure | packages/css/src/chaos-journey.ts:250-257 | in place: a known journey gets the time zone only, a new station waits for its evening |
| DepotJourneysObject.DepotJourneys.HeldTokens | packages/css/src/chaos-journey.ts:272-278 | exactly the cards of the vehicles at depot stations |
| DepotJourneysObject.DepotJourneys.HeldVehicles | packages/css/src/chaos-journey.ts:281-287 | exactly the keys of the vehicles at depot stations |
| DepotJourneysObject.DepotJourneys.Arrive | packages/css/src/chaos-journey.ts:290-302 | in place: the arrival, with a departure after now |
| DepotJourneysObject.DepotJourneys.Record | packages/css/src/chaos-journey.ts:305-317 | in place: the step recorded |
| DepotJourneysObject.DepotJourneys.SkipDue | packages/css/src/chaos-journey.ts:330-368 | in place: the step skipped, all seven cases |
| DepotJourneysObject.DepotJourneys.Retain | packages/css/src/chaos-journey.ts:374-378 | the loop keeps exactly the live stations, unchanged |
| ChaosJourneysObject.ChaosJourneys.NextDue | packages/css/src/chaos-journey.ts:74-79 | the station named is the first one due in insertion order; none is named exactly when none is due |
| ChaosJourneysObject.ChaosJourneys.Record | packages/css/src/chaos-journey.ts:55-67 | in place: the step after an action, the end of a journey at an unplug, or at a fault or an outage before charging |
| ChaosJourneysObject.ChaosJourneys.SkipDue | packages/css/src/chaos-journey.ts:91-104 | in place: the step skipped |
| ChaosJourneysObject.ChaosJourneys.Retain | packages/css/src/chaos-journey.ts:110-114 | the loop keeps exactly the live stations, unchanged |
| ChaosOrchestratorSafety.RunIsSafe | packages/css/src/chaos-orchestrator.ts:710-1059 | over every run of atomic ticks and refreshes: no two depot stations hold the same card or vehicle, no card charges at two stations, a card held at a depot station charges at no other station, the caches agree on the stations, and every depot journey is in order |
| ChaosOrchestratorSafety.TickKept | packages/css/src/chaos-orchestrator.ts:816-997 | a tick keeps all of that, whatever it reads and whether or not its publish works |
| ChaosOrchestratorSafety.RefreshKept | packages/css/src/chaos-orchestrator.ts:710-749 | a refresh keeps all of that, whatever it loads |
| ChaosOrchestratorTheorems.StartUsesAFreeCard | packages/css/src/chaos-orchestrator.ts:956-969 | every start published is for a station without a session, with a card that charges nowhere and belongs to no vehicle at another depot station, and the station then charges with it |
| ChaosOrchestratorTheorems.DepotCommandIsDue | packages/css/src/chaos-orchestrator.ts:923-926 | a depot station is sent a session step only when that step of its own overnight journey is due |
| ChaosOrchestratorCommands.OfferedExactly | packages/css/src/chaos-orchestrator.ts:868-926 | an action is offered exactly when the protocol has it, the station's state allows it (in session with a session in memory or in the database), a card is there if it needs one, and at a depot station it is no session step unless the journey is due |
| ChaosOrchestratorCommands.DueStepIsTried | packages/css/src/chaos-orchestrator.ts:938-992 | a due step of a station that is online and has a row is sent, if the publish works, exactly when it is offered and what it needs is there: a free card for a start, a free vehicle of the depot for its plug-in, the vehicle for its start |
| ChaosOrchestratorCommands.StartCardIsRight | packages/css/src/chaos-orchestrator.ts:956-969 | a start for a depot journey uses the card of the vehicle there, any other start a card of the station's fleet, or of the common pool when it has none |
| ChaosOrchestratorCommands.PlugInBringsVehicle | packages/css/src/chaos-orchestrator.ts:1005-1031 | a plug-in sent for a depot journey brings a vehicle of that depot that was at no station and whose card was in use nowhere |
| ChaosOrchestratorCommands.OfflineExactly | packages/css/src/chaos-orchestrator.ts:830-866 | an offline station is sent nothing until a tick brings it back, which does nothing else; a station goes offline only in an outage while no step is due |
| ChaosOrchestratorCommands.VisitBringsBack | packages/css/src/chaos-orchestrator.ts:830-846 | every tick that visits an offline station brings it back |
| ChaosOrchestratorCommands.OutageTakesOffline | packages/css/src/chaos-orchestrator.ts:848-866 | an outage while no step is due takes the station of the tick offline, asks it to, ends its public journey if that has not started, and does nothing else |
| RandomDraw.EveryElementIsPicked | packages/css/src/chaos-orchestrator.ts:24-26 | every element of a list is what some draw picks |
| ChaosOrchestratorTheorems.TickIsDepotMove | packages/css/src/chaos-orchestrator.ts:928-956 | a tick does to the depot journeys nothing, or exactly the one event its inputs name, and takes a step only when it is due |
| ChaosOrchestratorRefresh.RefreshIsEvents | packages/css/src/chaos-orchestrator.ts:743-748 | a refresh does to the depot journeys exactly what retaining the live depot stations and then ensuring each of them does |
| ChaosOrchestratorNights.RunIsNight | packages/css/src/chaos-orchestrator.ts:710-1059 | the depot journeys of every run of the orchestrator are those of a depot night, ticks and refreshes included |
| ChaosOrchestratorNights.NoStopBeforeDepartureInRuns | packages/css/src/chaos-orchestrator.ts:948-992 | in every run a stop at a depot station, published or passed over, is at or after the departure, and a vehicle that is there plugged in by an earlier tick strictly before that departure |
| ChaosOrchestratorNights.StartFollowsPlugInInRuns | packages/css/src/chaos-orchestrator.ts:948-992 | in every run a start recorded at a depot station follows a plug-in there, with no other session step recorded in between |
| ChaosOrchestratorSessions.SessionEndsExactly | packages/css/src/chaos-orchestrator.ts:816-997 | in every run a public journey that charges or has just stopped ends in a turn if and only if the turn unplugs the station, passes its due step over without a transaction, finds its row gone, or is a refresh that no longer loads it |
| ChaosOrchestratorSessions.PluggedEndsExactly | packages/css/src/chaos-journey.ts:55-104 | in every run a public journey that has not started ends for the same reasons, or by a fault or an outage, and for no other |
| ChaosOrchestratorSessions.DueStepFollowsLastMove | packages/css/src/chaos-journey.ts:55-104 | in every run a step named due is the successor of the last session action sent at the station (the command of an earlier tick), or the step last passed over, and comes at least 5 s after an action (2 min after a start, 10 s after a stop) and 30 s after a step passed over |
| ChaosOrchestratorSessions.TookIsSent | packages/css/src/chaos-orchestrator.ts:938-997 | an action a tick records for a public station is the one its command sent to that station; only going offline is recorded unsent |
| ChaosOrchestratorSessions.NextStepIsDueInTime | packages/css/src/chaos-journey.ts:55-104 | in every run the next step of a public journey is due less than 30 s after a plug-in, 15 min after a start, a minute after a stop and after a step passed over |
| ChaosOrchestratorSessions.RunMoves | packages/css/src/chaos-orchestrator.ts:816-997 | the public journeys of every run are what the logged moves make of them, one move a turn |
| ChaosOrchestratorSessions.HeldCardWasStarted | packages/css/src/chaos-orchestrator.ts:956-996 | in every run a card in use was taken by an earlier tick and used at the station ever since, and a start with it was sent if and only if that tick's publish worked |
| ChaosOrchestratorCards.CardInUseExactly | packages/css/src/chaos-orchestrator.ts:805-1059 | in every run a card is in use at a station if and only if a start took it there and since then no stop or unplug took effect there, its row did not go and every refresh loaded the station |
| ChaosOrchestratorCards.NoStopSinceStart | packages/css/src/chaos-orchestrator.ts:972-976 | in every run no stop and no unplug was sent to a station since its card in use was taken |
| ChaosOrchestratorCards.CardAfterTick | packages/css/src/chaos-orchestrator.ts:956-1059 | a tick changes the card of no station but the one it tries to start (which takes the card of the command), to stop or to unplug (which gives its card back), or whose row is gone; for a depot journey only if the publish works |
| ChaosOrchestratorCards.StopReleases | packages/css/src/chaos-orchestrator.ts:972-976 | after every tick that sends a stop or an unplug, of a depot journey or not, the station does not count as charging and uses no card, and its card is free unless a vehicle at a depot station has it |
| ChaosOrchestratorCards.FailedEnd | packages/css/src/chaos-orchestrator.ts:972-996 | a stop or an unplug whose publish fails is not sent; a depot journey stays exactly as it was, any other station is released all the same and its journey left as it is |
| ChaosOrchestratorExamples.RandomStepsAreNotSpaced | packages/css/src/chaos-orchestrator.ts:938-976 | only due steps are spaced: a run whose random picks plug in a station and start it one second later |
| ChaosOrchestratorTheorems.SessionKeepsItsCard | packages/css/src/chaos-orchestrator.ts:816-976 | no tick and no refresh gives a station that charges another card |
| ChaosOrchestratorTheorems.NoStartInSession | packages/css/src/chaos-orchestrator.ts:907-912 | a station with a session in memory or in the database is offered no start |
| ChaosOrchestratorObject.ChaosOrchestrator.DispatchRandomAction | packages/css/src/chaos-orchestrator.ts:816-997 | in place: one tick, on the due steps the two journey objects name |
| ChaosOrchestratorObject.ChaosOrchestrator.TakeDepotStep | packages/css/src/chaos-orchestrator.ts:1005-1059 | in place: the params and the record of a due depot step, nothing moved when its publish fails |
| ChaosOrchestratorObject.ChaosOrchestrator.TakePublicAction | packages/css/src/chaos-orchestrator.ts:956-992 | in place: a start with a free card, a stop or unplug, any other action |
| ChaosOrchestratorObject.ChaosOrchestrator.EnsureDepots | packages/css/src/chaos-orchestrator.ts:745-748 | the loop tracks every depot station |
| ChaosOrchestratorObject.ChaosOrchestrator.ApplyLoaded | packages/css/src/chaos-orchestrator.ts:710-749 | in place: one refresh, its loops over the caches included |
| ChaosOrchestratorObject.ChaosOrchestrator.DropStation | packages/css/src/chaos-orchestrator.ts:805-814 | in place: the station leaves every cache |
| SimulatorManagerTheorems.RunSyncs | packages/css/src/simulator-manager.ts:196-440 | after every sync of every run: each simulator has a row and was made for exactly that row, registrations are the simulators plus those that outlived a stop, at most 25 stations were healed |
| SimulatorManagerTheorems.SyncMatches | packages/css/src/simulator-manager.ts:272-440 | one sync over rows with distinct stations, from any state in which simulators are registered |
| SimulatorManagerRows.RunsExactly | packages/css/src/simulator-manager.ts:272-440 | after a sync a station runs if and only if it has a row and, as that row found it, it ran for the row and was not healed, or the row could start it (allowed target, reachable without a known failed probe, starting) |
| SimulatorManagerRows.FoundAsBefore | packages/css/src/simulator-manager.ts:278-295 | whether a station runs for its row is as before the sync when its row comes |
| SimulatorManagerRows.HealsExactly | packages/css/src/simulator-manager.ts:295-311 | a row heals its station, counts it and logs it exactly when the station runs for it, has not been ready for more than 45 s, is not offline, pending or rejected, was healed less than five times, and less than 25 were in this sync; it resets the count exactly when it finds the station ready |
| SimulatorManagerRows.ProbesAreCached | packages/css/src/simulator-manager.ts:330-400 | a probe that fails is remembered for 15 s, one that works is forgotten, nothing else is; a target is refused exactly by the last row that had its station started |
| SimulatorManagerTheorems.RegistrationsExactly | packages/css/src/simulator-manager.ts:196-440 | a sync leaves registrations and simulators of the same stations, whatever the rows, if and only if no registration had outlived its simulator before it |
| SimulatorManagerTheorems.RegistrationsAfterRows | packages/css/src/simulator-manager.ts:330-422 | for the rows at hand: if and only if every station whose registration had outlived its simulator has a row that can start it (allowed target, reachable, starting) |
| SimulatorManagerRuns.RegistrationOutlives | packages/css/src/simulator-manager.ts:124-134 | a run from the beginning (a sync, a stop, a sync without the row) that ends with a registration and no simulator |
| SimulatorManagerTheorems.NoneStaleBeforeStop | packages/css/src/simulator-manager.ts:196-440 | until the first stop, registrations are exactly the simulators |
| SimulatorManagerTheorems.AtMostFiveHeals | packages/css/src/simulator-heal.ts:35-42 | over every run, between two moments at which a station is seen ready or removed it is healed at most five times |
| SimulatorManagerTheorems.HealsAreBudgeted | packages/css/src/simulator-manager.ts:295-311 | over every run, a station that is not seen ready in a stretch is healed in it at most five times, and five times more for each time it is removed |
| SimulatorManagerRuns.BudgetIsAttained | packages/css/src/simulator-manager.ts:425-437 | the bound is attained: for every number of removals a run from the beginning heals a station five times and five times more for each, without ever seeing it ready |
| SimulatorManagerTheorems.RunInv | packages/css/src/simulator-manager.ts:295-311 | the heal counter of a station is always the number of its heals since that reset |
| SimulatorManagerObject.SimulatorManager.SyncStationsInner | packages/css/src/simulator-manager.ts:272-440 | in place: the loop over the rows, then the loop over the simulators without one |
| SimulatorManagerObject.SimulatorManager.SyncOne | packages/css/src/simulator-manager.ts:278-423 | in place: one row, the heal counted and logged exactly when it happens |
| SimulatorManagerObject.SimulatorManager.StopMissing | packages/css/src/simulator-manager.ts:425-439 | the loop forgets exactly the simulators without a row, with registration and heal counter |
| SimulatorManagerObject.SimulatorManager.Stop | packages/css/src/simulator-manager.ts:124-134 | in place: no simulator is left, everything else is |
| SimulatorManagerObject.SimulatorManager.SyncStations | packages/css/src/simulator-manager.ts:180-194 | in place: a sync, unless one is running |
| SimulatorManagerObject.SimulatorManager.BootStation | packages/css/src/simulator-manager.ts:330-422 | in place: a target refused, a probe cached or failed, or a simulator started or dropped |
| ClockAlignedModel.NextFireIsAligned | packages/css/src/clock-aligned-scheduler.ts:47-85 | after each tick the next fire is after now and congruent to the station's offset modulo the interval |
| ClockAlignedModel.NextFireIsInTheFuture | packages/css/src/clock-aligned-scheduler.ts:69-77 | so it is with any offset, zero included |
| ClockAlignedModel.FirstTickSettles | packages/css/src/clock-aligned-scheduler.ts:58-67 | the first tick settles an offset below the interval and does not fire, unless it draws a zero |
| ClockAlignedModel.FiresExactly | packages/css/src/clock-aligned-scheduler.ts:47-77 | a tick fires if and only if the station is connected, has an interval and its next fire is due; otherwise its slot stays |
| ClockAlignedModel.SlotIsFired | packages/css/src/clock-aligned-scheduler.ts:47-85 | over every run of ticks no slot is missed: the station fires once for it, at the first tick at or after it that finds the station connected |
| ClockAlignedModel.OffsetsAreSpread | packages/css/src/clock-aligned-scheduler.ts:58-62 | offsets are at most nine tenths of the interval, and each whole millisecond below that is what some draw gives |
| ClockAlignedModel.FireMovesOn | packages/css/src/clock-aligned-scheduler.ts:69-77 | successive slots differ by a positive multiple of the interval, exactly one interval if and only if the fire is at most interval minus offset late |
| ClockAlignedModel.FiresAreRare | packages/css/src/clock-aligned-scheduler.ts:47-85 | over every run of ticks missed intervals are not made up for: between two fires with k others there are more than k intervals |
| ClockAlignedSchedulerObject.ClockAlignedScheduler.TickAll | packages/css/src/clock-aligned-scheduler.ts:47-85 | in place: every station takes its tick once, and exactly the stations whose tick fires send |
| ClockAlignedSchedulerObject.ClockAlignedScheduler.Register | packages/css/src/clock-aligned-scheduler.ts:21-27 | in place: the station starts afresh |
| ClockAlignedSchedulerObject.ClockAlignedScheduler.Unregister | packages/css/src/clock-aligned-scheduler.ts:29-31 | in place: the station is not ticked any more |
| MeterModel.EnergyIsConserved | packages/css/src/meter-value-generator.ts:108-215 | over every run of ticks and resets the register plus its fraction is exactly the energy of all ticks, the fraction is below 1, power is bounded, the state of charge is the start plus the session's energy over the battery size, and a session takes at most the missing charge plus one tick |
| MeterEnergy.RegisterIsPowerTimesTime | packages/css/src/meter-value-generator.ts:152-160 | over every life 3600 times the register and its fraction is 10 times the sum of the powers the meter shows after its ticks |
| MeterEnergy.ChargeIsPowerTimesTime | packages/css/src/meter-value-generator.ts:152-160 | over every life the state of charge is the session's start and the percentage of the battery that the session's shown powers fill in ticks of 10 s, up to 100 % |
| MeterEnergy.FreePower | packages/css/src/meter-value-generator.ts:135-193 | into a battery that is not full a tick without a limit gives, to the whole watt below, 0.95 of the maximum less up to 10 % on AC; on DC the same 5 % around it below 80 %, falling linearly to 0.2 at 100 % |
| MeterEnergy.LimitedPower | packages/css/src/meter-value-generator.ts:140-146 | with a limit a tick gives the less of the limit and what it gives without one |
| MeterEnergy.SessionStarts | packages/css/src/meter-value-generator.ts:200-215 | a session starts with the battery and the charge it was given when they are valid, else with 60 kWh and 15 to 30 % |
| MeterModel.RegisterNeverFalls | packages/css/src/meter-value-generator.ts:152-160 | the register never goes back |
| MeterModel.PowerIsBounded | packages/css/src/meter-value-generator.ts:135-193 | power is never negative, never above the connector's maximum or the limit, and zero when idle or full |
| MeterValueGeneratorObject.MeterValueGenerator.TickOnce | packages/css/src/meter-value-generator.ts:108-133 | in place: one meter interval |
| MeterValueGeneratorObject.MeterValueGenerator.TickAc | packages/css/src/meter-value-generator.ts:135-148 | in place: a flat power within the limit, and its energy |
| MeterValueGeneratorObject.MeterValueGenerator.TickDc | packages/css/src/meter-value-generator.ts:162-193 | in place: constant power, then the taper, within the limit, and its energy |
| MeterValueGeneratorObject.MeterValueGenerator.AddEnergy | packages/css/src/meter-value-generator.ts:152-160 | in place: whole Wh to the register, the fraction carried, the battery filled |
| MeterValueGeneratorObject.MeterValueGenerator.ResetSession | packages/css/src/meter-value-generator.ts:200-215 | in place: a new session's battery, the register as it was |
| PemScan.RedactPemBlocks | packages/ai/src/redact.ts:153-182 | the linear scan replaces exactly the blocks that the rescan from the left finds, on every text, the early break included |
| PemScan.PemLabelEnd | packages/ai/src/redact.ts:135-145 | the end of the one label that starts there, or -1 exactly when none does |
| PemScan.IndexOf | packages/ai/src/redact.ts:158 | the first occurrence at or after a position, or -1 exactly when there is none |
| PemScan.BlockEnd | packages/ai/src/redact.ts:165-173 | the end of the first complete END after a header, or -1 exactly when there is none |
| PemScan.NoEndNoLaterBlock | packages/ai/src/redact.ts:174-175 | a header without a complete END after it means no block starts later either |
| PemScan.AllBlocksUnique | packages/ai/src/redact.ts:147-152 | a text has one list of leftmost, non-overlapping blocks |
| PemScan.OpensExactly | packages/ai/src/redact.ts:158-175 | a block starts at a header exactly when a complete END follows it |
| PemScan.WrittenIsBlock | packages/ai/src/redact.ts:127-152 | a block written with labels of capitals, digits and spaces and no dash inside is exactly one block |
| PemScan.OtherLabelsAreNone | packages/ai/src/redact.ts:131-145 | a mark with any other label, the empty one included, is none |
| PemScan.MaskedHasNoBlock | packages/ai/src/redact.ts:176-181 | with a marker that holds no header and starts and ends outside the label alphabet and the dash, the output has no block |
| PemScan.MaskingIsIdempotent | packages/ai/src/redact.ts:153-182 | masking the masked text finds no block and gives the same text, for every such marker |
| PemScan.RedactionIsIdempotent | packages/ai/src/redact.ts:153-182 | for the marker of the source: redacting what a redaction returned returns the same text and masks nothing |
| ArrayLiteral.LiteralReadsBack | packages/database/src/config.ts:73-88 | reading a literal by section 8.15.6 of the PostgreSQL manual gives the same nested values, for every depth and every element string, null apart from the string "null" |
| ArrayLiteral.LiteralIsInjective | packages/database/src/config.ts:76-88 | two arrays with one literal have the same values |
| ArrayLiteral.SerializesExactly | packages/database/src/config.ts:81-86 | a literal is produced exactly when no element at any depth is undefined |
| ArrayLiteral.UndefinedIsRefused | packages/database/src/config.ts:70-82 | an undefined element at any depth is an error, never a null |
| ArrayLiteral.QuotedReadsBack | packages/database/src/config.ts:73-74 | the two replacements of the quoting are undone by the reader |
| CheckDigits.LuhnValid | packages/ai/src/redact.ts:184-197 | the loop from the right decides the Luhn sum (Annex B of ISO/IEC 7812-1) |
| CheckDigits.OneDigitAdds | packages/ai/src/redact.ts:184-197 | one digit set in a number of zeros, whose sum is 0, adds itself, or the digits of its double at every second place from the right |
| CheckDigits.LuhnFindsOneDigit | packages/ai/src/redact.ts:184-197 | every change of one digit of a valid number is found, at any length |
| CheckDigits.LuhnFindsSwap | packages/ai/src/redact.ts:184-197 | a swap of neighbours is found if and only if they differ and are not 0 and 9 |
| CheckDigits.LuhnCheckDigit | packages/ai/src/redact.ts:184-197 | every number has exactly one check digit that completes it |
| CheckDigits.IbanValid | packages/ai/src/redact.ts:219-229 | the streamed remainder decides the expanded number modulo 97 (ISO 13616), spaces removed, at any length |
| CheckDigits.Continue | packages/ai/src/redact.ts:223-227 | the streamed remainder after the digits of one character is that of the number read so far |
| CheckDigits.NumberIsIbanNumber | packages/ai/src/redact.ts:223-227 | the expanded number in closed form, character by character |
| CheckDigits.DigitsWritePlace | packages/ai/src/redact.ts:223-226 | exactly capitals and digits have a place: a digit itself, a letter two decimal digits from 10 for A to 35 for Z |
| CheckDigits.IbanFindsOneCharacter | packages/ai/src/redact.ts:219-229 | two IBANs that differ in one digit, or in one letter for a letter, are never both valid |
| CheckDigits.IbanFindsSwap | packages/ai/src/redact.ts:219-229 | a swap of two different neighbours of the same kind in a valid IBAN goes unfound if and only if it is that of the fourth and the fifth character and the digits behind the first place of the rearranged number are a multiple of 96; with at most 34 characters every such swap is found |
| CheckDigits.SwapUnfound | packages/ai/src/redact.ts:219-229 | the failing case: for every such number of digits a text that stays valid when the two are swapped |

## Left out

- Network, TLS and certificate checks, WebSocket frames, Redis, SQL and logging: they appear only as events and inputs that may take any value.
- Callbacks of the OCPP client (connected, disconnected, network profile fallback): a callback that calls back into the client is not modelled, an event with its promise continuations is one step, and the back-off of a turn is read in that step.
- SEND, CALL answering and malformed frames of the OCPP client: they change none of the state modelled here.
- OcppClientSafety.AnswerSettlesOwnCall: the payload conversion of OCPP 2.0.1 is an input, because its tables are data.
- Overlapping ticks of the orchestrator: a tick is atomic here, although the source awaits between picking a vehicle and its arrival; a run in which a second tick starts in that gap is not covered.
- DepotJourneyModel.ArrivalIsInWindow: the site calendar is a parameter (lists of instants); that its evenings end after they start is assumed here and not derived from the time zone rules.
- The state of charge a depot vehicle arrives with, its battery and its body type: parameters of a command that no later step reads.
- The chaos action tables and the parameters of their commands: a tick is given the actions of its station's protocol.
- SimulatorManagerTheorems.SyncMatches: rows have distinct station ids, as the database demands; commands that reach a simulator during a sync, and a stop during a sync, are not interleaved with it.
- The configuration of a started simulator (certificates, EVSEs, defaults): data copied from the row.
- ClockAlignedModel.FiresAreRare: the interval is constant and the offset settled at a nonzero value; a station that draws a zero offset draws again at the next tick.
- MeterModel.EnergyIsConserved: amounts are reals, so floating-point rounding is not modelled; limits are not negative, as `limitNowW` guarantees. Voltage, current, frequency, temperature and the sampled values are left out: they feed nothing back.
- CompositeExactness.OutputIsExact: profiles whose anchor falls back to the start of the window change with the window, and profiles with negative starts are left to `CompositeRefinement.SeamlessIsExact`.
- CompositeProgram.ComputeCompositeSchedule: limits are reals and the source's infinity is its own value; a rate unit is A, W or absent, and the voltage is positive; unparsable times are absent ones.
- PemScan.RedactPemBlocks: the secret patterns, Unicode normalisation, key names and hashing around the scan are regular expressions and library code.
- ArrayLiteral.LiteralReadsBack: the reader follows the manual's rules for quoting, null and nesting; that PostgreSQL refuses arrays of unequal sub-array lengths is not part of it. Array holes are not modelled.
- The other packages (CSMS API, billing, portal, UI, worker jobs, generated schemas): wiring, data and look-ups.
