# Location services: a verified model

The repository is an Android device tree whose algorithms are the session, subscription and
state machines of its location HAL, with a sensor event reader, a string conversion shim and a
PPS reader beside them.  This project models those algorithms in Dafny and proves what they
guarantee over whole runs.

Every object that is updated in place is a class whose methods change its fields step by step,
with the loops of the original.  Each method is proved to take the object's value (`View()`) to
a specification function of the same event, and the properties are lemmas about that function
and about runs of it.  One queued message is one atomic step.  What the modem, the framework
or the clock answers is a parameter; what is sent to them is a result or a ghost log.

| files | what they model |
|---|---|
| `Agps.dfy`, `AgpsRuns.dfy`, `AgpsManager.dfy` | the AGPS data-connection machine and its manager |
| `TripBatching.dfy`, `TripRuns.dfy`, `TripIntervals.dfy`, `TripTargets.dfy`, `TripExamples.dfy` | the trip batching multiplexer against the distance really travelled, the intervals asked for and the distances still to go |
| `SetMaps.dfy`, `OsObserver.dfy`, `OsObserverRuns.dfy`, `OsObserverDelivery.dfy` | the subscription index, the delivery of changes and what clients know |
| `Tracking.dfy`, `TrackingRuns.dfy`, `TrackingExact.dfy` | the multiplexer of time-based tracking sessions, and what exactly it sends the engine |
| `Geofence.dfy`, `GeofenceRuns.dfy` | the two-way geofence index against the engine's table |
| `SvBlacklist.dfy` | satellite masks to lists and back |
| `EventReader.dfy` | the circular reader as a queue |
| `ModifiedUtf8.dfy` | UTF-16 to modified UTF-8: RFC 3629, section 3, with each surrogate in three bytes of its own and U+0000 as C0 80 |
| `History.dfy`, `Nmea.dfy` | the bounded report history and the NMEA tokenizer |
| `Pps.dfy` | the pulse filter and the conversion to boot time |
| `Ordered.dfy`, `Wrappers.dfy` | walking an ordered map, minimum loops that start from zero, and values that may be missing |

`dafny verify dfyconfig.toml` checks everything.

## Where the code does less than it says

Each of these is followed as the code has it and met by the exact condition under which the
promise holds; the lemmas whose names say that something can happen give a concrete run.

- **Updating a subscription.**  `LocUnorderedSetMap::update` is documented to return the values
  removed (gps/utils/LocUnorderedSetMap.h:173-175), and `updateSubscription` relies on that
  (gps/core/SystemStatusOsObserver.cpp:159-171).  It returns the values the old and new sets
  have in common (lines 182-184), so the client is taken off the items it keeps.  The indexes
  stay inverse exactly while no client that holds items updates (`InverseRunsIff`), changes are
  delivered exactly as long as no client updates to an item it holds (`DeliveryIsExact`,
  `UpdateCanMissDelivery`), and nobody stays listed for what it gave up as long as no update
  leaves out an item its client is listed for (`TightRunsIff`, `DepartedClientCanStayListed`).
  Whoever holds an item has last been told its cached value exactly as long as no notification
  misses it (`UpToDateRunsIff`).
  The documented behaviour is proved sound in `DocumentedUpdateInverse`.
- **Requesting data.**  A request for an item nobody is listed for replaces the subscription to
  it (gps/core/SystemStatusOsObserver.cpp:111-117).  `FrameworkFollowsIndex`,
  `RequestCanReplaceSubscription`.
- **Going back to an earlier subscription object.**  What it was left subscribed to is never
  taken back (gps/core/SystemStatusOsObserver.cpp:62-87).  `FrameworkFollowsIndex`.
- **Switching to distance tracking where it is not supported.**  The session gives up its share
  of the engine and is saved again as a time-based one
  (gps/gnss/GnssAdapter.cpp:2606-2621, 2286-2297).  `StepServesIff`, `ServedRunsIff`,
  `ReprogrammingIsExact`, `SwitchCanStopTheEngine`.
- **Slowing down the fastest session.**  The engine is not told when the session behind it is
  reached, and goes on at the old interval (gps/gnss/GnssAdapter.cpp:2713-2733).
  `StepMinimalIff`, `MinimalRunsIff`, `SlowdownCanLag`.
- **Power modes.**  A session that is faster but not stronger is combined with the power mode of
  the fastest other one (lines 2715-2723), and after an engine restart an invalid mode of the
  first session sticks (lines 2165-2171).  `JoinSendsStrongestIff`, `RestartPowerIff`.
- **Joining a trip that needs a restart.**  The carry-over is the last reported distance, so
  what was travelled since is lost (gps/batching/BatchingAdapter.cpp:838-843).
  `JoinKeepsDistanceIff`, `JoinCanLoseDistance`.
- **Stopping a trip when the query fails.**  The error of the counter query is not looked at
  (gps/batching/BatchingAdapter.cpp:967), and the modem is restarted on whatever the answer
  holds.  `RestartKeepsDistanceIff`, `DistancesKeptIff`, `OnTimeRunIff`,
  `UnansweredStopCanCompleteEarly`.
- **Restarting the modem too far.**  What a stop sends is what remained of the trips at their
  last report, and a restart for the interval alone sends the whole old distance
  (lines 946-957, 982-1003), so the batch can end after a trip has reached its distance.
  `RestartDistanceIff`, `InTimeRunsIff`, `StopCanOvershoot`.
- **Reporting a distance late.**  A report goes by the counter as it was when the report was
  queued (lines 647-706), even if the modem was restarted meanwhile.  `OnTimeRunIff`,
  `NoEarlyCompletion`, `StaleReportCanCompleteEarly`.
- **Restarting geofences.**  What comes back is recorded as not paused
  (gps/geofence/GeofenceAdapter.cpp:171, 657), and the geofences of a stopped client whose removal was
  not confirmed come back too.  `PausesMirroredIff`,
  `PauseCanBeForgotten`, `SecondRestartResumes`, `RestartKeepsAll`.
- **Satellite bits above 30.**  The bit is made by shifting an `int`
  (gps/gnss/GnssAdapter.cpp:1491).  `RoundTripIff`.
- **Trips that ask for interval 0.**  The loop that looks for the smallest interval takes 0 for
  "none yet" (gps/batching/BatchingAdapter.cpp:958-962), so a zero is forgotten unless the trip
  with the greatest id has it too.  `IntervalMinimumIff`, `EveryTripIsServed`,
  `ZeroIntervalCanBeForgotten`.

## Model

| member | source | states |
|---|---|---|
| `AgpsRuns.Conservation` | gps/gnss/Agps.cpp:73-283 | over every run, restarts included, every subscriber ever listed is accounted for exactly once: still listed, told open failure, told close, or dropped by a modem restart; handles in the list are distinct |
| `AgpsRuns.ToldExactlyWhileAcquired` | gps/gnss/Agps.cpp:73-194 | an active listed subscriber has been told open success, and nothing final since, if and only if the machine is ACQUIRED |
| `AgpsRuns.FailureFollowsDenial` | gps/gnss/Agps.cpp:243-283 | in every run, open failure is told only after the framework denied a connection it had been asked for, with nothing else from the framework between, and never to a handle that was told of success and of nothing final since |
| `AgpsRuns.FinalNotices` | gps/gnss/Agps.cpp:196-283 | a denial while PENDING tells each listed handle open failure and nobody close; a RELEASED while ACQUIRED tells each close and nobody failure; the end of a release tells close to those who waited and keeps the others; nothing else the framework says tells anybody an end |
| `AgpsRuns.LeavingTells` | gps/gnss/Agps.cpp:119-171 | who gives the connection up without waiting is told close at once and is off the list, who waits is told nothing and stays, inactive; nobody else is told or moved |
| `AgpsRuns.StateAndList` | gps/gnss/Agps.cpp:109-283 | RELEASED means an empty list; without a modem restart PENDING and ACQUIRED mean somebody is active and RELEASING that somebody is listed |
| `AgpsRuns.RequestsAreSeparated` | gps/gnss/Agps.cpp:289-308 | between any two requests to the framework a release was sent or RELEASED or DENIED arrived |
| `AgpsRuns.ConnectionDiscipline` | gps/gnss/Agps.cpp:289-308 | a request is sent only with none outstanding, a release only for one that is |
| `AgpsRuns.LateGrantIsIgnored` | gps/gnss/Agps.cpp:173-194 | a GRANTED that arrives when none is awaited changes neither state, list nor account |
| `AgpsRuns.RunKeeps` | gps/gnss/Agps.cpp:41-283 | the invariant behind these, kept by every handler in every order |
| `AgpsRuns.SubscribeKeeps` | gps/gnss/Agps.cpp:73-107 | subscribing keeps it, also of a handle already listed |
| `AgpsRuns.UnsubscribeKeeps` | gps/gnss/Agps.cpp:109-171 | so does giving up the connection, waiting for the close or not |
| `AgpsRuns.GrantedKeeps` | gps/gnss/Agps.cpp:173-194 | so does GRANTED: exactly the active subscribers are told |
| `AgpsRuns.ReleasedKeeps` | gps/gnss/Agps.cpp:196-241 | so does RELEASED, forced or awaited |
| `AgpsRuns.DeniedKeeps` | gps/gnss/Agps.cpp:243-283 | so does DENIED |
| `AgpsRuns.ModemRestartKeeps` | gps/gnss/Agps.cpp:495-506 | so does dropping everybody |
| `AgpsRuns.RemainingSplits` | gps/gnss/Agps.cpp:310-343 | notifying with deletion splits the list: who is left and who was told make up who was there |
| `Agps.AgpsStateMachine.ProcessAgpsEvent` | gps/gnss/Agps.cpp:41-71 | the machine's new state, list and trace for each event |
| `Agps.AgpsStateMachine.ProcessAgpsEventSubscribe` | gps/gnss/Agps.cpp:73-107 | the subscribe handler in each state |
| `Agps.AgpsStateMachine.ProcessAgpsEventUnsubscribe` | gps/gnss/Agps.cpp:109-171 | the unsubscribe handler in each state |
| `Agps.AgpsStateMachine.ProcessAgpsEventGranted` | gps/gnss/Agps.cpp:173-194 | the GRANTED handler |
| `Agps.AgpsStateMachine.ProcessAgpsEventReleased` | gps/gnss/Agps.cpp:196-241 | the RELEASED handler |
| `Agps.AgpsStateMachine.ProcessAgpsEventDenied` | gps/gnss/Agps.cpp:243-283 | the DENIED handler |
| `Agps.AgpsStateMachine.NotifyAllSubscribers` | gps/gnss/Agps.cpp:310-343 | the erase-while-iterating loop tells exactly the selected subscribers, in order, and deletes exactly those if asked |
| `Agps.AgpsStateMachine.NotifyEventToSubscriber` | gps/gnss/Agps.cpp:345-380 | which status a subscriber is sent, open success, open failure or close, and whether it is deleted; over runs this is `FailureFollowsDenial`, `FinalNotices` and `ToldExactlyWhileAcquired` |
| `Agps.AgpsStateMachine.AddSubscriber` | gps/gnss/Agps.cpp:392-411 | appended unless a subscriber with the handle is listed |
| `Agps.AgpsStateMachine.DeleteSubscriber` | gps/gnss/Agps.cpp:413-430 | every subscriber with the handle goes, the others stay in order |
| `Agps.AgpsStateMachine.AnyActiveSubscribers` | gps/gnss/Agps.cpp:432-442 | true exactly if somebody listed is active |
| `Agps.AgpsStateMachine.GetSubscriber` | gps/gnss/Agps.cpp:465-478 | found exactly if listed, and then the first with the handle |
| `Agps.AgpsStateMachine.DropAllSubscribers` | gps/gnss/Agps.cpp:495-506 | an empty list, each subscriber dropped once |
| `AgpsManager.ReleasingIsUnreachable` | gps/gnss/Agps.cpp:563-675 | through the manager no machine is ever RELEASING, every listed subscriber is active, and both machines keep the whole invariant |
| `AgpsManager.ReleasedHandlesNobody` | gps/gnss/Agps.cpp:113-116 | so the RELEASED case of the unsubscribe handler is never reached by a release |
| `AgpsManager.RequestIsListed` | gps/gnss/Agps.cpp:537-597 | a request of no type or of a SUPL type, an emergency one rerouted or not, is listed by the AGNSS machine and one of any other type by the internet machine; the other machine is untouched, and without a machine the modem is refused |
| `AgpsManager.ReleaseLeavesIff` | gps/gnss/Agps.cpp:599-625 | after any calls, a released handle is listed nowhere if and only if the two machines did not both list it; other handles stay |
| `AgpsManager.MachinesExistIff` | gps/gnss/Agps.cpp:514-535 | over all calls: a machine exists if and only if some call asked for it, AGNSS only of a device that is capable |
| `AgpsManager.CallsAreHeard` | gps/gnss/Agps.cpp:627-675 | the framework's word reaches the machine of its type and only that one; a modem restart reaches both and empties their lists |
| `AgpsManager.NothingForgotten` | gps/gnss/Agps.cpp:514-675 | no call, creating again included, loses a machine or anything that crossed its boundary |
| `AgpsManager.AgpsManager.CreateAgpsStateMachines` | gps/gnss/Agps.cpp:514-535 | which machines there are afterwards; existing ones stay |
| `AgpsManager.AgpsManager.GetAgpsStateMachine` | gps/gnss/Agps.cpp:537-561 | the machine of each connection type |
| `AgpsManager.AgpsManager.RequestATL` | gps/gnss/Agps.cpp:563-597 | the routed machine handles the request, or it is refused for want of one |
| `AgpsManager.AgpsManager.ReleaseATL` | gps/gnss/Agps.cpp:599-625 | the machine that lists the handle handles the release, AGNSS first |
| `AgpsManager.AgpsManager.ReportATL` | gps/gnss/Agps.cpp:627-662 | the framework's report reaches exactly one machine |
| `AgpsManager.AgpsManager.HandleModemSSR` | gps/gnss/Agps.cpp:664-675 | both machines drop their subscribers |
| `TripRuns.NoEarlyCompletion` | gps/batching/BatchingAdapter.cpp:661-697 | after every run of joins, stops, reports and restarts that goes by timely values, a trip that a timely report completes has really travelled its distance |
| `TripRuns.RunKeeps` | gps/batching/BatchingAdapter.cpp:749-1028 | in every such run no trip has more recorded than it really travelled, nor more reported than recorded |
| `TripRuns.OnTimeRunIff` | gps/batching/BatchingAdapter.cpp:661-1028 | for all runs: no trip is ever credited with more than it has if and only if every report, and every answer that restarts the modem, is timely for every trip that goes by it: not ahead of the counter, and behind the trip's snapshot by no more than its carry-over, unless the sum wraps to less |
| `TripRuns.TimelyIff` | gps/batching/BatchingAdapter.cpp:669-673 | the same of one session and value, with the 32-bit arithmetic |
| `TripRuns.AnsweredRunsAreOnTime` | gps/batching/BatchingAdapter.cpp:967-978 | runs in which reports and restarting stops are answered with the counter are among these |
| `TripRuns.StepKeeps` | gps/batching/BatchingAdapter.cpp:749-1028 | each step that goes by timely values keeps the books |
| `TripRuns.ReportPartitions` | gps/batching/BatchingAdapter.cpp:667-690 | for any reported value: the completed list is, in id order, exactly the trips whose distance reached their own by it; every other is kept, strictly short and brought up to date |
| `TripRuns.SweepIs` | gps/batching/BatchingAdapter.cpp:667-690 | the erase-while-iterating loop, in one statement |
| `TripRuns.RestartKeepsDistanceIff` | gps/batching/BatchingAdapter.cpp:1009-1025 | in any state, a stop or a report keeps the adapter's own distance, carry-over plus counter less snapshot, of a trip that stays if and only if it does not restart the modem or goes by the counter |
| `TripRuns.DistancesKeptIff` | gps/batching/BatchingAdapter.cpp:860-1028 | for all runs: stops and reports keep the distance of every trip that stays if and only if every restart goes by the counter |
| `TripRuns.DistanceIsRealIff` | gps/batching/BatchingAdapter.cpp:749-1028 | in runs that go by timely values: every trip's distance is in every state the one really travelled if and only if no join restarts the modem while something is unreported and every other restart goes by the counter |
| `TripRuns.StayingIs` | gps/batching/BatchingAdapter.cpp:860-1028 | what a stop or a report makes of every trip that stays, for any answer |
| `TripRuns.JoinKeepsDistanceIff` | gps/batching/BatchingAdapter.cpp:782-843 | a join never adds to that distance of a running trip, and keeps it exactly if the modem is not restarted or nothing was unreported |
| `TripExamples.JoinCanLoseDistance` | gps/batching/BatchingAdapter.cpp:838-843 | a run in which a trip has travelled its 100 and only 40 are recorded |
| `TripExamples.UnansweredStopCanCompleteEarly` | gps/batching/BatchingAdapter.cpp:967-978 | a run in which a stop is answered with 0 and a trip of 150 is reported complete at 0 |
| `TripExamples.StaleReportCanCompleteEarly` | gps/batching/BatchingAdapter.cpp:647-706 | a run in which a report of 90 is handled after a restart and a trip of 150 is reported complete at 90 |
| `TripIntervals.ReportFindsMinimum` | gps/batching/BatchingAdapter.cpp:946-957 | after a report of any value no subtraction wraps and the zero-sentinel loop finds the true, positive minimum of what remains |
| `TripIntervals.RemainingMinimumIff` | gps/batching/BatchingAdapter.cpp:946-957 | in any restart the loop finds the true minimum of what remains if and only if no trip is past its distance and it is not so that some trip has just reached its own and the trip with the greatest id has not |
| `TripIntervals.IntervalMinimumIff` | gps/batching/BatchingAdapter.cpp:958-962 | the loop finds the true minimum of any intervals if and only if it is not the case that some trip asks for 0 and the trip with the greatest id does not |
| `TripIntervals.EveryTripIsServed` | gps/batching/BatchingAdapter.cpp:749-1028 | for all runs, whatever the answers: the interval the modem last accepted is at most every running trip's in every state, if and only if no restart loses an interval of 0 |
| `TripIntervals.StepServesIff` | gps/batching/BatchingAdapter.cpp:749-1028 | the same of each step: it fails exactly in a successful restart, after a trip with the ongoing interval went, of trips whose zero is forgotten |
| `TripIntervals.PositiveIsServed` | gps/batching/BatchingAdapter.cpp:924-1028 | so with positive intervals every trip is served in every run |
| `TripIntervals.RunAgrees` | gps/batching/BatchingAdapter.cpp:749-1028 | in every run, as long as there is a trip, the ongoing distance and interval are those of the batch the modem last accepted |
| `TripIntervals.LastStopIff` | gps/batching/BatchingAdapter.cpp:866-877 | when the last trip is stopped the modem stops exactly if it accepts; the books are cleared either way |
| `TripTargets.RestartDistanceIff` | gps/batching/BatchingAdapter.cpp:946-994 | when the trips left are short of their distances, a stop or a report that restarts the modem sends the least that remains of any if and only if a trip with the ongoing distance is gone, the batch is done, or it has more to go than that least (or as much as the old distance is); otherwise it sends the old distance; and what is sent is no more than that least exactly then or when the old distance is not |
| `TripTargets.AcceptedGoesLeast` | gps/batching/BatchingAdapter.cpp:982-1025 | so with that trip gone or the batch done, the modem's accepted batch has exactly the least that remained to go, from a counter of 0 |
| `TripTargets.RestartsIff` | gps/batching/BatchingAdapter.cpp:979-1003 | the modem is told to restart if and only if trips are left, after a report another one is done, and the distance or the interval calls for it |
| `TripTargets.InTimeRunsIff` | gps/batching/BatchingAdapter.cpp:749-1028 | in runs that go by timely values: in every state the modem's batch is over no later than any trip reaches its own distance, if and only if no restart overshoots, by conditions on the state before it |
| `TripTargets.StepInTimeIff` | gps/batching/BatchingAdapter.cpp:749-1028 | the same of each step: a join overshoots only without knowing how far the batch has come, or when it is overdue; a report only for the interval alone; a stop also when a trip has come too far since its last report |
| `TripTargets.ReportedStopOvershootsIff` | gps/batching/BatchingAdapter.cpp:946-1003 | when everything is reported a stop overshoots exactly as a report does: for the interval alone, with a trip that has less to go than the old distance |
| `TripTargets.JoinGoes` | gps/batching/BatchingAdapter.cpp:820-848 | a join that restarts the modem leaves it with the smaller of its own distance and what the batch still has to go, or the whole ongoing distance when the query fails |
| `TripExamples.StopCanOvershoot` | gps/batching/BatchingAdapter.cpp:946-994 | a run in which a stop restarts the modem to go 150 though the one trip left has 60 to go |
| `TripExamples.ZeroIntervalCanBeForgotten` | gps/batching/BatchingAdapter.cpp:958-962 | a run in which a trip asked for 0 and the modem is restarted with a positive interval |
| `TripBatching.BatchingAdapter.StartTripBatchingMultiplex` | gps/batching/BatchingAdapter.cpp:749-857 | first start or join: sessions, ongoing values and command, for each answer of the modem |
| `TripBatching.BatchingAdapter.StopTripBatchingMultiplex` | gps/batching/BatchingAdapter.cpp:860-920 | a stop, with the restart it may cause |
| `TripBatching.BatchingAdapter.RestartTripBatching` | gps/batching/BatchingAdapter.cpp:924-1028 | whether the modem is restarted and with what, and the new books if it agrees; what that is worth is `RestartsIff`, `RestartDistanceIff` and `InTimeRunsIff` for the distance and `StepServesIff` for the interval |
| `TripBatching.BatchingAdapter.FindMinima` | gps/batching/BatchingAdapter.cpp:946-962 | the two minima, with zero standing for none yet |
| `TripBatching.BatchingAdapter.RebaseAll` | gps/batching/BatchingAdapter.cpp:1010-1020 | the loop after a successful restart, for every session |
| `TripBatching.BatchingAdapter.CarryOverAll` | gps/batching/BatchingAdapter.cpp:838-843 | the loop of a join that restarts, for every session |
| `TripBatching.BatchingAdapter.ReportCompletedTrips` | gps/batching/BatchingAdapter.cpp:661-702 | the handler of the modem's distance report |
| `Ordered.SentinelMinIff` | gps/batching/BatchingAdapter.cpp:946-962 | a loop that takes zero for none yet finds the true minimum of any sequence exactly if there is no zero or the last value is zero |
| `Ordered.LoopMinIff` | gps/batching/BatchingAdapter.cpp:946-962 | over an ordered map such a loop finds the least value if and only if it is not so that some value is zero and that of the greatest key is not |
| `OsObserverRuns.InverseRunsIff` | gps/core/SystemStatusOsObserver.cpp:92-291 | the two indexes are mutual inverses in every state of a run if and only if no client that holds items updates its subscription |
| `OsObserverRuns.StepInverseIff` | gps/core/SystemStatusOsObserver.cpp:92-373 | the same of each message |
| `OsObserverRuns.UpdateInverseIff` | gps/core/SystemStatusOsObserver.cpp:149-176 | an update keeps the indexes inverse exactly if the client held nothing |
| `OsObserverRuns.UpdateLists` | gps/core/SystemStatusOsObserver.cpp:149-176 | after an update the client holds the new items and is listed under the items of exactly one of the two sets |
| `OsObserverRuns.UpdatePairs` | gps/core/SystemStatusOsObserver.cpp:149-176 | what each client holds and is listed for after an update, in any state |
| `OsObserverRuns.DocumentedUpdateInverse` | gps/core/SystemStatusOsObserver.cpp:153-171 | with what the comments promise, every update keeps them inverse |
| `OsObserverRuns.SubscribeInverse` | gps/core/SystemStatusOsObserver.cpp:103-107 | subscribing keeps them inverse |
| `OsObserverRuns.UnsubscribeInverse` | gps/core/SystemStatusOsObserver.cpp:221-229 | so does unsubscribing |
| `OsObserverRuns.UnsubscribeAllInverse` | gps/core/SystemStatusOsObserver.cpp:260-266 | so does unsubscribing from everything |
| `OsObserverRuns.FrameworkFollowsIndex` | gps/core/SystemStatusOsObserver.cpp:62-291 | over all runs: the net set subscribed at the current object is in every state within the items somebody is listed for if and only if no object is set again that is left over with another item, and always equal to it if and only if, besides, no data request names an item nobody is listed for |
| `OsObserverRuns.StepFramework` | gps/core/SystemStatusOsObserver.cpp:62-291 | the same of each message; setting an object that is not left over makes it equal |
| `OsObserverRuns.NewObjectFits` | gps/core/SystemStatusOsObserver.cpp:62-87 | a new object is never left over, nor the current one |
| `OsObserverRuns.RequestCanReplaceSubscription` | gps/core/SystemStatusOsObserver.cpp:111-117 | a run in which somebody is listed for an item and the framework is not subscribed to it |
| `OsObserverRuns.RunNoEmpty` | gps/utils/LocUnorderedSetMap.h:80-88 | no entry of either index is ever empty, so an item has an entry exactly if somebody is listed for it |
| `OsObserverRuns.DeliveryIsExact` | gps/core/SystemStatusOsObserver.cpp:92-341 | over every run, every notification in every state would tell each client exactly its own items that changed, if and only if no client ever updates to an item it already holds |
| `OsObserverRuns.DeliversIff` | gps/core/SystemStatusOsObserver.cpp:308-341 | a state delivers every notification exactly if and only if each client is listed for what it holds |
| `OsObserverRuns.StepCoveredIff` | gps/core/SystemStatusOsObserver.cpp:92-373 | each message keeps every client listed for what it holds, but for exactly an update that names an item its client holds |
| `OsObserverRuns.TightRunsIff` | gps/core/SystemStatusOsObserver.cpp:92-291 | over all runs: nobody is listed for an item it does not hold, in any state, if and only if no update leaves out an item its client is listed for |
| `OsObserverRuns.StepTightIff` | gps/core/SystemStatusOsObserver.cpp:92-373 | the same of each message |
| `OsObserverRuns.LeavesListIff` | gps/core/SystemStatusOsObserver.cpp:260-266 | a client that unsubscribes from everything is listed nowhere if and only if it was listed for nothing it did not hold |
| `OsObserverRuns.DepartedClientCanStayListed` | gps/core/SystemStatusOsObserver.cpp:149-176 | a run after which a client that left is still listed |
| `OsObserverRuns.DueIs` | gps/core/SystemStatusOsObserver.cpp:318-341 | what is due to a client, by the values that arrived, is one message with exactly its items that changed, and what the cache then holds of them, if there are any |
| `OsObserverRuns.MissedChange` | gps/core/SystemStatusOsObserver.cpp:318-341 | a client that is not listed for an item it holds is not told when that item changes |
| `OsObserverRuns.DeliveryOf` | gps/core/SystemStatusOsObserver.cpp:308-341 | in any state, a client is told what is due, by the values that arrived, if it is listed for an item that changed, and nothing otherwise |
| `OsObserverRuns.UpdateAllIs` | gps/core/SystemStatusOsObserver.cpp:541-572 | after any items, an entry is the last value recorded for it, accepted and creatable if new, or else what it was; and it is reported as changed if and only if one of those values differed from the one before it |
| `OsObserverRuns.ChangedIs` | gps/core/SystemStatusOsObserver.cpp:308-316 | so the ids a notification goes by are those of which a recorded value differed from the one before, and the cache holds the last recorded values |
| `OsObserverDelivery.UpToDateRunsIff` | gps/core/SystemStatusOsObserver.cpp:92-341 | over all runs: in every state every client has last been told the cached value of each item it holds, if and only if no notification gives a held item a new value whose client is listed for none of the items that change |
| `OsObserverDelivery.StepUpToDateIff` | gps/core/SystemStatusOsObserver.cpp:92-341 | the same of each message |
| `OsObserverDelivery.CoveredIsUpToDate` | gps/core/SystemStatusOsObserver.cpp:92-341 | so it is as long as no client updates its subscription to an item it already holds |
| `OsObserverDelivery.SubscribeTells` | gps/core/SystemStatusOsObserver.cpp:103-108 | a subscription tells its client the cached value of every item it names, and nobody anything else |
| `OsObserverDelivery.UpdateTells` | gps/core/SystemStatusOsObserver.cpp:153-173 | an update tells its client the cached value of every item it did not hold |
| `OsObserverDelivery.NotifyTells` | gps/core/SystemStatusOsObserver.cpp:308-341 | a notification tells a client that is listed for some changed item the last arrived value of each item it holds that changed |
| `OsObserverRuns.StepRequests` | gps/core/SystemStatusOsObserver.cpp:62-124 | an object is asked for the data of what a subscription requests, and of every listed item when it is set |
| `OsObserverRuns.UpdateCanMissDelivery` | gps/core/SystemStatusOsObserver.cpp:149-176 | a run in which a client holds an item, the item changes, and the client is not told |
| `OsObserver.SystemStatusOsObserver.SetSubscriptionObj` | gps/core/SystemStatusOsObserver.cpp:62-87 | the framework is subscribed to and asked for every listed item, if there are any |
| `OsObserver.SystemStatusOsObserver.Subscribe` | gps/core/SystemStatusOsObserver.cpp:92-138 | both indexes, the cached items sent, and the framework call |
| `OsObserver.SystemStatusOsObserver.UpdateSubscription` | gps/core/SystemStatusOsObserver.cpp:140-210 | the same for an update, as the code has it |
| `OsObserver.SystemStatusOsObserver.Unsubscribe` | gps/core/SystemStatusOsObserver.cpp:212-251 | the same for an unsubscribe |
| `OsObserver.SystemStatusOsObserver.UnsubscribeAll` | gps/core/SystemStatusOsObserver.cpp:253-291 | the same for a client that leaves |
| `OsObserver.SystemStatusOsObserver.Notify` | gps/core/SystemStatusOsObserver.cpp:296-373 | the new cache and what each client is told |
| `OsObserver.SystemStatusOsObserver.DeliverChanged` | gps/core/SystemStatusOsObserver.cpp:318-341 | the two delivery loops: each interested client gets its share once |
| `OsObserver.SystemStatusOsObserver.SendCachedDataItems` | gps/core/SystemStatusOsObserver.cpp:513-539 | exactly the cached items of the set, if there are any |
| `OsObserver.SystemStatusOsObserver.UpdateCacheWith` | gps/core/SystemStatusOsObserver.cpp:541-572 | the new cache and whether the entry changed, for one item; for lists of items `UpdateAllIs` says what both are by the values that arrived |
| `SetMaps.LocUnorderedSetMap.GetValSet` | gps/utils/LocUnorderedSetMap.h:105-108 | the entry, or the empty set |
| `SetMaps.LocUnorderedSetMap.Remove` | gps/utils/LocUnorderedSetMap.h:119-121 | the map without the entry, and whether there was one |
| `SetMaps.LocUnorderedSetMap.Add` | gps/utils/LocUnorderedSetMap.h:143-155 | the entry grown or created; empty additions create nothing |
| `SetMaps.LocUnorderedSetMap.AddToAll` | gps/utils/LocUnorderedSetMap.h:160-171 | all entries grown, and exactly the new keys reported |
| `SetMaps.LocUnorderedSetMap.TrimOrRemove` | gps/utils/LocUnorderedSetMap.h:127-139 | the entries trimmed, emptied ones dropped, and exactly the dropped keys and removed values reported |
| `SetMaps.LocUnorderedSetMap.Update` | gps/utils/LocUnorderedSetMap.h:176-187 | the entry replaced; the common values are returned and taken from the argument |
| `SetMaps.RemoveAndReturnInterset` | gps/utils/LocUnorderedSetMap.h:57-70 | the intersection, and each set without it |
| `TrackingRuns.ServedRunsIff` | gps/gnss/GnssAdapter.cpp:2376-2842 | in every state of a run the engine runs exactly while there is a time-based session and is never slower than any, if and only if no harmful switch to unsupported distance tracking happens |
| `TrackingRuns.StepServesIff` | gps/gnss/GnssAdapter.cpp:2376-2842 | the same of each message |
| `TrackingRuns.SupportedIsAlwaysServed` | gps/gnss/GnssAdapter.cpp:2286-2297 | where distance tracking is supported that is every run |
| `TrackingRuns.ReprogrammingIsExact` | gps/gnss/GnssAdapter.cpp:2376-2842 | after any run, whatever the engine is programmed with next is the smallest interval of the resulting sessions and serves them all, except in an unsupported switch, where that holds if and only if another session is as fast |
| `TrackingRuns.SwitchSendsIff` | gps/gnss/GnssAdapter.cpp:2606-2621 | the exception, in any state |
| `TrackingRuns.StepServes` | gps/gnss/GnssAdapter.cpp:2376-2842 | every other message, in any state, sends the minimum if it sends anything, and keeps the service |
| `TrackingRuns.SwitchServesIff` | gps/gnss/GnssAdapter.cpp:2606-2621 | an unsupported switch does no harm exactly if the session is not the only one and the engine goes on with an interval that is fast enough: another session's if the stop's guard holds, else the present one |
| `TrackingRuns.SwitchCanStopTheEngine` | gps/gnss/GnssAdapter.cpp:2606-2621 | a run that ends with a time-based session and no engine session |
| `TrackingRuns.StopSendsStrongestPowerIff` | gps/gnss/GnssAdapter.cpp:2793-2842 | a stop that reprograms sends the strongest power mode left if and only if it is not so that a session left has an invalid mode and the one with the greatest key has not |
| `TrackingRuns.StartIsMin` | gps/gnss/GnssAdapter.cpp:2455-2505 | a start sends the new minimum, or somebody is already as fast |
| `TrackingRuns.UpdateIsMin` | gps/gnss/GnssAdapter.cpp:2676-2738 | so does an update |
| `TrackingRuns.StopIsMin` | gps/gnss/GnssAdapter.cpp:2793-2842 | a stop sends the minimum of those left, or stops the engine exactly if nobody is |
| `TrackingRuns.EngineUpIsMin` | gps/gnss/GnssAdapter.cpp:2145-2177 | a restart starts the engine exactly if there is a session, with the minimum |
| `TrackingExact.MinimalRunsIff` | gps/gnss/GnssAdapter.cpp:2376-2842 | over all runs: in every state the engine runs exactly while there is a time-based session, at the smallest interval asked for, if and only if no step lags: no fastest session slows down unnoticed behind another, and no unsupported switch leaves nobody as fast |
| `TrackingExact.StepMinimalIff` | gps/gnss/GnssAdapter.cpp:2376-2842 | the same of each message |
| `TrackingExact.UpdateSilentIff` | gps/gnss/GnssAdapter.cpp:2686-2735 | an update of one of several sessions is not passed on if and only if it changes neither interval nor power mode, or another session is as fast and the least power mode found among the others is as strong |
| `TrackingExact.LoneUpdate` | gps/gnss/GnssAdapter.cpp:2724-2733 | after any run, an update of the only session leaves the engine with exactly what is asked, the interval raised to 100, if it changes interval or power mode, and otherwise as it was |
| `TrackingExact.SlowdownCanLag` | gps/gnss/GnssAdapter.cpp:2713-2733 | a run after which the engine is at 1000 ms and every session at 5000 or more |
| `TrackingExact.StartSends` | gps/gnss/GnssAdapter.cpp:2469-2503 | a start beside other sessions sends the options of the first fastest one with the new interval if smaller and the new power mode if stronger, and nothing if neither |
| `TrackingExact.UpdateSends` | gps/gnss/GnssAdapter.cpp:2694-2733 | so does an update of one of several sessions that changes it, of the others |
| `TrackingExact.StopSends` | gps/gnss/GnssAdapter.cpp:2806-2838 | a stop beside others sends the options of the first fastest one left with the least power mode found, exactly if the stopped one was faster or stronger |
| `TrackingExact.JoinSendsStrongestIff` | gps/gnss/GnssAdapter.cpp:2713-2722 | where no invalid mode is forgotten, what is sent has the strongest power mode if and only if the new one is stronger than all others or the fastest one has the strongest |
| `TrackingExact.RestartPowerIff` | gps/gnss/GnssAdapter.cpp:2154-2172 | after an engine restart the power mode is the strongest valid one if and only if the first session in key order has a valid one or none has |
| `TrackingExact.RestartGoesByFastest` | gps/gnss/GnssAdapter.cpp:2154-2172 | and the interval, distance and mode are those of the first fastest session |
| `TrackingExact.SavedAsAsked` | gps/gnss/GnssAdapter.cpp:2376-2453 | after any run, a handled start or update leaves its session listed once, by distance exactly if it asks for that and it is supported, as it was asked with the interval raised to 100 and M4 replaced by M2 where it falls back; everything else stays, and everything when it is refused |
| `TrackingExact.StoppedIsGone` | gps/gnss/GnssAdapter.cpp:2740-2791 | a stopped session is listed nowhere and every other one stays |
| `Tracking.GnssAdapter.StartTracking` | gps/gnss/GnssAdapter.cpp:2376-2453 | sessions and engine after a start, with every refusal |
| `Tracking.GnssAdapter.UpdateTracking` | gps/gnss/GnssAdapter.cpp:2556-2674 | the same after an update, with its four cases |
| `Tracking.GnssAdapter.StopTracking` | gps/gnss/GnssAdapter.cpp:2740-2791 | the same after a stop |
| `Tracking.GnssAdapter.StartTimeBasedTrackingMultiplex` | gps/gnss/GnssAdapter.cpp:2455-2505 | what the engine is sent, and whether the client is answered at once |
| `Tracking.GnssAdapter.UpdateTrackingMultiplex` | gps/gnss/GnssAdapter.cpp:2676-2738 | what the engine is sent for an update, and whether the client is answered at once; `LoneUpdate`, `UpdateSilentIff` and `UpdateSends` say what that is without the adapter's loops |
| `Tracking.GnssAdapter.StopTimeBasedTrackingMultiplex` | gps/gnss/GnssAdapter.cpp:2793-2842 | the same for a stop |
| `Tracking.GnssAdapter.FindOthers` | gps/gnss/GnssAdapter.cpp:2694-2712 | the fastest options and strongest power mode among the other sessions |
| `Tracking.GnssAdapter.SaveTrackingSession` | gps/gnss/GnssAdapter.cpp:2286-2297 | which map a session is saved in |
| `Tracking.GnssAdapter.EraseTrackingSession` | gps/gnss/GnssAdapter.cpp:2300-2313 | which map it is erased from |
| `Tracking.GnssAdapter.RestartSessions` | gps/gnss/GnssAdapter.cpp:2145-2177 | what the engine is started with when it is up again |
| `GeofenceRuns.IndexOverRuns` | gps/geofence/GeofenceAdapter.cpp:50-176 | in every run the two maps are inverses except for stopped clients' geofences, and the table holds the engine's geofences |
| `GeofenceRuns.StepKeeps` | gps/geofence/GeofenceAdapter.cpp:644-724 | the same of each message |
| `GeofenceRuns.CommandChangesOne` | gps/geofence/GeofenceAdapter.cpp:688-724 | an accepted pause, resume or modify changes the one geofence under its key, here and in the engine's own table, and of it only what was asked; all others and the keys stay |
| `GeofenceRuns.FenceIsBack` | gps/geofence/GeofenceAdapter.cpp:141-176 | a geofence accepted again is found under its new id and its key with all it had, here but for its pause, and in the engine with its pause unless that is refused |
| `GeofenceRuns.ModifiedComesBack` | gps/geofence/GeofenceAdapter.cpp:141-176 | what was modified comes back with the new option after the next restart, here and in the engine |
| `GeofenceRuns.PauseIsAskedAgain` | gps/geofence/GeofenceAdapter.cpp:168-172 | the next restart asks for the pause of a geofence that was paused and not of one that was resumed, and of the others as before |
| `GeofenceRuns.RestartBringsBack` | gps/geofence/GeofenceAdapter.cpp:141-176 | after a restart the geofences are, with options and positions, exactly those the engine accepted again |
| `GeofenceRuns.RestartKeepsAll` | gps/geofence/GeofenceAdapter.cpp:141-176 | when it accepts all, nothing is lost, and the known keys are the old ones and those of stopped clients |
| `GeofenceRuns.RestartMirrorsIff` | gps/geofence/GeofenceAdapter.cpp:168-172 | the pauses agree with the engine's after a restart if and only if no paused geofence came back with its pause accepted |
| `GeofenceRuns.StepMirrorsIff` | gps/geofence/GeofenceAdapter.cpp:50-176 | the same of each message, from agreement |
| `GeofenceRuns.PausesMirroredIff` | gps/geofence/GeofenceAdapter.cpp:50-176 | over all runs: they agree in every state if and only if no restart ever does that |
| `GeofenceRuns.PauseCanBeForgotten` | gps/geofence/GeofenceAdapter.cpp:168-172 | a run of three steps after which they disagree |
| `GeofenceRuns.RestartUnpauses` | gps/geofence/GeofenceAdapter.cpp:168-172 | after a restart nothing is paused here, and in the engine exactly what it was asked to pause and did not refuse |
| `GeofenceRuns.SecondRestartResumes` | gps/geofence/GeofenceAdapter.cpp:141-176 | after two restarts without a command between, nothing is paused in the engine |
| `GeofenceRuns.BreachReachesOwner` | gps/geofence/GeofenceAdapter.cpp:786-818 | each geofence of a breach event reaches its owner under the owner's id, as often as it is listed |
| `GeofenceRuns.BreachIsOwn` | gps/geofence/GeofenceAdapter.cpp:796-803 | a client is told of its own geofences only |
| `GeofenceRuns.BreachInOrder` | gps/geofence/GeofenceAdapter.cpp:796-803 | and in the order of the event |
| `Geofence.GeofenceAdapter.GetHwIdFromClient` | gps/geofence/GeofenceAdapter.cpp:95-105 | found exactly if the key is known |
| `Geofence.GeofenceAdapter.GetGeofenceKeyFromHwId` | gps/geofence/GeofenceAdapter.cpp:107-117 | found exactly if the engine id is known |
| `Geofence.GeofenceAdapter.SaveGeofenceItem` | gps/geofence/GeofenceAdapter.cpp:643-661 | both maps, not paused |
| `Geofence.GeofenceAdapter.RemoveGeofenceItem` | gps/geofence/GeofenceAdapter.cpp:663-686 | both maps, unless the key is gone |
| `Geofence.GeofenceAdapter.PauseGeofenceItem` | gps/geofence/GeofenceAdapter.cpp:688-698 | only the flag of a known geofence |
| `Geofence.GeofenceAdapter.ResumeGeofenceItem` | gps/geofence/GeofenceAdapter.cpp:700-710 | only the flag of a known geofence |
| `Geofence.GeofenceAdapter.ModifyGeofenceItem` | gps/geofence/GeofenceAdapter.cpp:712-724 | the options of a known geofence are replaced and nothing else is; `CommandChangesOne` says so of the whole index |
| `Geofence.GeofenceAdapter.StopClientSessions` | gps/geofence/GeofenceAdapter.cpp:50-78 | exactly the client's keys go, and exactly their engine ids are asked to be removed |
| `Geofence.GeofenceAdapter.StopAnswered` | gps/geofence/GeofenceAdapter.cpp:62-73 | the geofence goes only when the engine confirms |
| `Geofence.GeofenceAdapter.RestartGeofences` | gps/geofence/GeofenceAdapter.cpp:141-176 | the loop adds each geofence again and asks for exactly the pauses of those accepted |
| `Geofence.GeofenceAdapter.GeofenceBreach` | gps/geofence/GeofenceAdapter.cpp:786-818 | who is told of a breach, and which ids |
| `SvBlacklist.RoundTripIff` | gps/gnss/GnssAdapter.cpp:1441-1563 | masks to list and back is guaranteed to be the identity if and only if each mask is all ones or uses only bits 0 to 30 |
| `SvBlacklist.FaithfulRoundTrips` | gps/gnss/GnssAdapter.cpp:1441-1563 | the sufficient half, for any shift the language allows |
| `SvBlacklist.EntriesAre` | gps/gnss/GnssAdapter.cpp:1553-1562 | the list of a mask is strictly ascending with exactly one entry per set bit |
| `SvBlacklist.ListedSatellites` | gps/location/LocationDataTypes.h:1166-1183 | bit 0 is GLONASS 65, BEIDOU 201, QZSS 193 and GALILEO 301: each of their 64 satellites is listed exactly if its bit is set, and a full mask as 0 |
| `SvBlacklist.MaskOfListIff` | gps/gnss/GnssAdapter.cpp:1455-1498 | for any list: a bit is set afterwards if and only if it was before, an entry of 0 sets the whole mask, or an entry within the 64 satellites shifts to it |
| `SvBlacklist.ApplyList` | gps/gnss/GnssAdapter.cpp:1455-1498 | reading a mask's list sets exactly that mask and leaves the others |
| `SvBlacklist.EntrySetsBits` | gps/gnss/GnssAdapter.cpp:1491-1492 | a bit set by an entry is never cleared by a later one |
| `SvBlacklist.ConvertGnssSvIdMaskToList` | gps/gnss/GnssAdapter.cpp:1538-1563 | the shifting loop appends the list of the mask; all ones is the single id 0 |
| `SvBlacklist.ConvertFromGnssSvIdConfig` | gps/gnss/GnssAdapter.cpp:1508-1536 | the four lists are appended in order to the target's, and the flag is set exactly if it was or a mask is not empty |
| `SvBlacklist.ConvertToGnssSvIdConfig` | gps/gnss/GnssAdapter.cpp:1441-1506 | the masks of a list, and whether any bit is set |
| `EventReader.InputEventCircularReader.constructor` | hardware-moto-sensors/InputEventReader.cpp:34-41 | an empty queue in an array of twice the capacity |
| `EventReader.InputEventCircularReader.Fill` | hardware-moto-sensors/InputEventReader.cpp:48-71 | a read of any size appends exactly its events to the queue; a failed, partial or refused one leaves the queue as it was |
| `EventReader.InputEventCircularReader.ReadEvent` | hardware-moto-sensors/InputEventReader.cpp:73-78 | one exactly if the queue is not empty, at the oldest event |
| `EventReader.InputEventCircularReader.Next` | hardware-moto-sensors/InputEventReader.cpp:80-87 | drops exactly the oldest event, so what was taken and what is queued is always what was filled, in order |
| `EventReader.InputEventCircularReader.WriteAtHead` | hardware-moto-sensors/InputEventReader.cpp:52-53 | a read writes inside the array and never on an unread event |
| `EventReader.InputEventCircularReader.MoveHead` | hardware-moto-sensors/InputEventReader.cpp:58-67 | the copy back of what ran past the middle |
| `EventReader.WrapCopy` | hardware-moto-sensors/InputEventReader.cpp:62-67 | the copy back overwrites nothing unread and queues every new event, also with the head at the very end of the first half |
| `EventReader.UnreadStays` | hardware-moto-sensors/InputEventReader.cpp:73-78 | the queue depends only on the cells that hold unread events |
| `EventReader.UnreadGrows` | hardware-moto-sensors/InputEventReader.cpp:58-67 | cells filled behind the unread events are appended to the queue |
| `EventReader.UnreadShrinks` | hardware-moto-sensors/InputEventReader.cpp:80-87 | stepping the read position, round the end too, drops the oldest |
| `ModifiedUtf8.RoundTrip` | libshims/strdup16to8.cpp:109-140 | decoding what is written gives the string back, for every string, embedded zeros included |
| `ModifiedUtf8.Canonical` | libshims/strdup16to8.cpp:118-129 | only the encoding of a string decodes to it |
| `ModifiedUtf8.EncodingShape` | libshims/strdup16to8.cpp:109-140 | no zero byte before the terminator, and the exact length |
| `ModifiedUtf8.Strnlen16to8` | libshims/strdup16to8.cpp:29-94 | for every string and word size both paths return the smaller of the exact length and one less than the largest size |
| `ModifiedUtf8.Strncpy16to8` | libshims/strdup16to8.cpp:109-140 | exactly the encoding and a terminator are written, nothing behind them |
| `ModifiedUtf8.WriteUnit` | libshims/strdup16to8.cpp:118-134 | the bytes of one unit; the early end of the loop is never taken |
| `ModifiedUtf8.Strndup16to8` | libshims/strdup16to8.cpp:146-168 | a fresh buffer of exactly length and one, or null exactly for null, an overflowing length or no memory |
| `History.ReportIsNewest` | gps/core/SystemStatus.cpp:1346-1370 | after any stream, defaults interleaved, the report is the last five of the stream with repetitions collapsed |
| `History.CollapsedIs` | gps/core/SystemStatus.cpp:1346-1370 | the collapsed stream has one item for each event that is first, a default or unlike the event before it, with its content and time and the report time of the last repetition |
| `History.LatestIsLast` | gps/core/SystemStatus.cpp:1372-1380 | the latest-only report has the content and report time of the last event |
| `History.NeighboursDiffer` | gps/core/SystemStatus.cpp:1346-1361 | in a stream without defaults no two neighbours of the history are equal |
| `History.ItemReport.SetItemInReport` | gps/core/SystemStatus.cpp:1346-1361 | the new report, of at most five, and whether it changed |
| `History.ItemReport.SetDefaultItemInReport` | gps/core/SystemStatus.cpp:1363-1370 | appended without comparing, of at most five |
| `History.ItemReport.GetItemInReport` | gps/core/SystemStatus.cpp:1372-1380 | the newest item, if there is one |
| `Nmea.TokenizerUndoesPrinting` | gps/core/SystemStatus.cpp:63-83 | a printed sentence gives exactly its fields back |
| `Nmea.TokensRebuildSentence` | gps/core/SystemStatus.cpp:66-83 | of any sentence with a star, fields and leftover rebuild it with its first star a comma, and none can be cut further |
| `Nmea.TokensAreUnique` | gps/core/SystemStatus.cpp:74-83 | no other comma-free tokens rebuild it |
| `Nmea.SystemStatusNmeaBase` | gps/core/SystemStatus.cpp:56-84 | the loop finds the tokens of a debug sentence with a star, and nothing for any other; it ends |
| `Pps.ForwardedIff` | gps/gnsspps/gnsspps.c:268-290 | with a positive count, a pulse is forwarded if and only if none of the last `count` pulses, itself included, is the first or follows a gap longer than the outage |
| `Pps.AllForwarded` | gps/gnsspps/gnsspps.c:268-290 | with any other count every pulse is |
| `Pps.PublishedIff` | gps/gnsspps/gnsspps.c:251-298 | over any stream of fetches, a fetch publishes its pulse if and only if it succeeds, no window starts among the last `count` pulses fetched, and it is stamped by the boot clock, or by the real-time clock with an offset that moved by at most 10 ms since the last forwarded real-time stamp, if there is one and its offset was not zero |
| `Pps.FailuresDoNotMatter` | gps/gnsspps/gnsspps.c:262-266 | failed fetches leave no trace |
| `Pps.StampedIff` | gps/gnsspps/gnsspps.c:193-243 | the part of the clocks, for the pulses that are forwarded |
| `Pps.OffsetIsLast` | gps/gnsspps/gnsspps.c:228-229 | the remembered offset is that of the last forwarded real-time stamp, published or not |
| `Pps.PublishedOnBootClock` | gps/gnsspps/gnsspps.c:142-235 | a published pulse is as far from the boot reading as its stamp is from the clock that stamped it, at most 100 ms; any other leaves what was published alone |
| `Pps.SumUndoesDifference` | gps/gnsspps/gnsspps.c:101-124 | sum and difference of normal times are inverses |
| `Pps.PpsReader.ReadPps` | gps/gnsspps/gnsspps.c:251-298 | the filter's and the published state after a fetch, and what it returns; a failed fetch changes nothing |
| `Pps.PpsReader.ComputeRealToBootTime` | gps/gnsspps/gnsspps.c:168-247 | what is published of a pulse, the offset remembered, and whether it succeeds, also when a clock cannot be read |

## Left out

- AGPS: APN, bearer, connection type and APN masks are not part of what is sent; the machine's pointer to its current subscriber is replaced by its value and handle.
- AgpsManager.AgpsManager.ReportATL: requires the machine to exist, because the source dereferences it unchecked.
- Trip batching: the modem answers before the next command, a restart on a join succeeds, a query of a join that succeeds answers the counter, session ids are unique, the counter only grows and is zeroed by a restart, and no distance really travelled reaches 2^32.
- Trip batching: the batch-full mask, `mBatchingSessions` (a trip that joins is never saved in it), restarting after an engine crash (lines 216-235 iterate over copies), and changing the options of a session, which is a stop and a start.
- Trip batching: the source reads a session's fields after erasing it (lines 677-687); here they are read before.
- OS observer: turning items on and off, the backhaul, logging; clients are told in no particular order, so each has its own inbox.
- OS observer: copying an item into the cache is taken to replace the value and report whether it changed, and a subscription object is new or the current one.
- LocUnorderedSetMap: sets are values, so incrementing an erased iterator (line 59) and reading one (line 136) do not show; each element is visited once.
- Tracking: keys are represented by their rank in the order of the map, the engine answers success before the next command, and `setLocationOptions` copies all but power mode and time between measurements; `stopClientSessions`, power state reports and position modes are not modelled.
- Geofences: the engine answers a command before the next one, except that removals for a stopped client are answered later or never, and no answer crosses a restart; engine ids are unused when handed out and generated ids are new.
- Geofences: the collective answers to a client and the order of requests.
- SvBlacklist.ConvertToGnssSvIdConfig: the shift of an `int` is a parameter that is fixed for bits 0 to 31 only, because the language does not define it beyond.
- ModifiedUtf8: units and bytes are bit-vectors of their width, sizes are numbers that wrap at a given largest size of at least 3; decoding is not in the source and is the reference the encoding is proved against.
- EventReader: file descriptors and `errno` are the outcome of a read; `Next` requires an event, as its callers make sure.
- History: items are compared by an abstract content; collating network information is not modelled.
- Nmea: the sentence is a C string without its terminator and the pointer is not null; the parsers of the single sentences are not modelled.
- Pps: opening the device, the thread and its lock; the threshold comparisons are made in whole nanoseconds, not in floating-point milliseconds; after an interrupted fetch the time is whatever the buffer holds.
- Threads, sockets, configuration files, the light, vibrator, power and Bluetooth parts, and the request queue of the location client are not part of this model.
