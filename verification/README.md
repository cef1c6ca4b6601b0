# A verified model of a telephony daemon

The project models four parts of the daemon in Dafny and proves what they are for.

- **The event loop of libril**: timers on a sorted intrusive ring, a pending ring and a table of eight
  watched descriptors (`TimeVals`, `TimerQueue`, `EventList`, `EventLoop`, `WatchTable`).
- **Requests and responses of libril**: the pending list, cancellation on disconnect, and the wake lock with
  its cancellable timer (`CommandChannel`, `PendingRequests`, `WakeLock`, `WakeLockThreads`).
- **The Samsung-RIL scheduler**: the request queue and the FMT client's mirror of it, sequence numbers,
  expectations of generic responses, the request-data store, the fall of the radio to UNAVAILABLE
  (`ListHead`, `FmtNumbers`, `GenericResponse`, `RequestStore`, `RequestQueue`, `Scheduler`, `DispatchFates`,
  `DispatchSweep`, `DispatchLoop`, `RadioState`).
- **The modem protocols on top**: PDP context ids, tones, facility locks (`DataConnections`, `DataCalls`; `Dtmf`,
  `DtmfTones` and `FacilityLock`, with a module each for their limits and their code).

Code that updates state in place is written as methods on objects: rings and chains of nodes with their links,
the callback record that a pointer write cancels, the watch table. The lists of Samsung-RIL are all kept in the linked
list of `ListHead`. Each method is proved to act as a step function on values, and to keep the invariant of its
module. What a step comes to is also stated without it, on what shows: the log, the reports, the lists
(`DispatchFates`, `DataCalls`, `DtmfTones`, the reports of `FacilityLock`). Whole runs, that is, any sequence of steps in any order, are then reasoned about on the values. An object's
address is modelled by a number of its own (`id`, `serial`), so removal is by identity; unbounded integers stand for C
integers, with the wrap-around of the sequence byte written out. `dafny verify dfyconfig.toml` checks everything.

## What the proofs found

Some natural claims are false of the code. The model keeps the code as it is and proves when they hold.

- Timers with equal deadlines do not fire in the order they were added, but in the reverse of it, over every run
  exactly as long as no delay is negative (`TiesIffDelays`).
- Timers fire in order of deadline over every run exactly as long as no delay is below -1 microsecond (`OrderIffDelays`).
- A response can go out on a later connection than its request came in on, exactly when it is in flight, off
  the list and not yet written, while the new connection is accepted (`CrossingIffInFlight`).
- Watching a descriptor that is watched already leaves two slots with it, and only that spoils the table (`Add`).
- A wake response that fails to marshal releases a lock that an earlier one still needs; besides the latest timer
  nothing else releases it (`ReleasedExactly`).
- The threads of the wake lock can lose the name of a live release, exactly by a clear that straddles a response
  (`NameLostIff`), and a release that read its parameter before it was cancelled lets the lock go early, exactly when
  the field names another by then (`ReleasedEarlyIff`). No held lock is left without a release (`HeldLockIsReleased`).
- Two live requests share a number exactly when their draws are a multiple of 254 apart; then the later one in the
  list cannot be found by its number, and its answer completes the other (`TokenRoundTrip`, `SharedNumber`).
- At most one request of a kind is in flight exactly for the kinds whose handler tests for that kind, and for those
  that never wait for the modem. The handler of CHANGE_SIM_PIN2 tests for CHANGE_SIM_PIN (sim.c:871), and
  SEND_SMS_EXPECT_MORE shares the handler of SEND_SMS, which tests for SEND_SMS (`SingleFlightIff`).
- The failed answer for a cancelled data call stops a connection that is already up, if there is one
  (`AnswerAfterCancel`, `AnswerAfterCancelExample`).
- SUCCESS for SETUP_DATA_CALL means that the connection is up, but for one case: the modem disables it first, and then
  it is gone (`SuccessMeans`).
- Cancelling a DTMF request lets one tone start over another exactly when a callback is still waited for or a sounding
  tone is not stored (`DtmfLimits.CancelSafeIff`).
- A lock information can report another PIN request's result for the lock (`ReportRightIff`, `InfoSafeIff`); one for
  another request can take the lock data away, so that success is reported for a lock never sent (`OtherInfoSafeIff`),
  or its result, so that a refused lock is reported as success by another's result (`InfoSafeIff`, `LostResultExample`);
  and a cancelled lock request leaves its data in the store, where the next one sends it, exactly when something is
  stored at that moment (`FacilityLockLimits.CancelSafeIff`).

Sources: `ril_event.cpp` and `ril.cpp` of libril, Samsung-RIL, and the copy of libsamsung-ipc that Samsung-RIL is
written against, whose generic response check looks at the top bit of the code only
(old resources/external_libsamsung-ipc/samsung-ipc/gen.c:24-33).

## Model

| member | source | states |
|---|---|---|
| `TimeVals.TimerAdd` | old resources/libril/ril_event.cpp:37-66 | `timeradd` adds microseconds exactly and keeps normalised values normalised |
| `TimeVals.TimerSub` | old resources/libril/ril_event.cpp:37-66 | `timersub` subtracts microseconds exactly, with one borrow, and keeps normalised values normalised |
| `TimeVals.TimerLess` | old resources/libril/ril_event.cpp:37-66 | `timercmp` on normalised values is the order of the microseconds |
| `TimeVals.UsecInjective` | old resources/libril/ril_event.cpp:37-66 | a normalised value is determined by its microseconds, so the refinement to integers loses nothing |
| `TimerQueue.Insert` | old resources/libril/ril_event.cpp:287-313 | inserting at the place found keeps the queue sorted by deadline |
| `TimerQueue.ExpiredExact` | old resources/libril/ril_event.cpp:159-181 | in a sorted queue the prefix that the sweep takes is exactly the set of expired timers |
| `TimerQueue.FiresOnceAndLate` | old resources/libril/ril_event.cpp:159-214 | in every run each timer asked for fires at most once, strictly after the clock reading of its call plus its delay, and one that has not fired is in exactly one queue |
| `TimerQueue.ExpiredFire` | old resources/libril/ril_event.cpp:159-214 | the pass that begins with a sweep fires what was pending, then every timer that has expired at the sweep and no other |
| `TimerQueue.FiresInDeadlineOrder` | old resources/libril/ril_event.cpp:159-214 | over a whole run timers fire in order of deadline, and none waits that is due before one that has fired, if no delay is below -1 microsecond |
| `TimerQueue.NegativeDelayBreaksOrder` | old resources/libril/ril_event.cpp:287-313 | every delay below that has a run in which the order fails |
| `TimerQueue.OrderIffDelays` | old resources/libril/ril_event.cpp:287-313 | all runs with delays from a bound on fire in order if and only if the bound is at least -1 |
| `TimerQueue.TiesFireInReverse` | old resources/libril/ril_event.cpp:159-214 | over a whole run without negative delays, timers with one deadline fire in the reverse of the order they were added |
| `TimerQueue.TieInOrder` | old resources/libril/ril_event.cpp:287-313 | a run with a delay of -1 microsecond in which two timers with one deadline fire in the order they were added |
| `TimerQueue.TiesIffDelays` | old resources/libril/ril_event.cpp:287-313 | all runs with delays from a bound on reverse equal deadlines if and only if the bound is at least 0 |
| `EventList.AddToList` | old resources/libril/ril_event.cpp:116-123 | the ring with sentinel stays well linked both ways and spells the old sequence with the event put in before the given node |
| `EventList.RemoveFromList` | old resources/libril/ril_event.cpp:125-134 | the ring stays well linked and spells the old sequence without the event, whose own links are cleared |
| `EventList.Link` | old resources/libril/ril_event.cpp:116-123 | adding to one ring leaves a disjoint ring well formed, and the two stay disjoint |
| `EventList.Unlink` | old resources/libril/ril_event.cpp:125-134 | removing the first member of one ring leaves a disjoint ring well formed, and the two stay disjoint |
| `EventLoop.Loop.constructor` | old resources/libril/ril_event.cpp:108-114 | both lists start as empty rings |
| `EventLoop.Loop.TimerAdd` | old resources/libril/ril_event.cpp:287-313 | the timer list becomes `Insert` of the old one, still sorted and disjoint from the pending list; without a delay nothing changes |
| `EventLoop.Loop.FindPlace` | old resources/libril/ril_event.cpp:296-304 | the walk stops at the first timer that is not due earlier |
| `EventLoop.Loop.MoveFirst` | old resources/libril/ril_event.cpp:170-177 | one iteration: the first timer becomes the last pending event |
| `EventLoop.Loop.ProcessTimeouts` | old resources/libril/ril_event.cpp:159-181 | exactly the expired timers move to the end of the pending list, in order; all others stay |
| `EventLoop.Loop.FirePending` | old resources/libril/ril_event.cpp:203-214 | every event pending at first fires once, in list order, and the list is left empty, whatever timers the callbacks arm meanwhile; those are inserted in order of deadline |
| `EventLoop.Loop.CalcNextTimeout` | old resources/libril/ril_event.cpp:216-239 | no timeout exactly for an empty list; otherwise the minimum over all timers of what is left until the deadline, never negative, normalised |
| `WatchTable.Table.Add` | old resources/libril/ril_event.cpp:266-284 | the lowest free slot takes the event, a full table ignores it; index, descriptor set and `nfds` stay exact if and only if the descriptor was not watched, otherwise two slots share it |
| `WatchTable.Table.RemoveWatch` | old resources/libril/ril_event.cpp:137-157 | the slot is freed and the descriptor leaves the set; slots, set and `nfds` (the largest watched descriptor plus one) stay exact if and only if the slot held that descriptor, or neither was in use |
| `WatchTable.Table.LargestFd` | old resources/libril/ril_event.cpp:146-155 | the scan finds the largest watched descriptor, 0 when there is none |
| `WatchTable.Table.Del` | old resources/libril/ril_event.cpp:316-330 | an event whose index is out of range is left alone; any other takes its slot and descriptor with it, and the table stays exact if and only if they belong together, as they do for a watched event |
| `WatchTable.Table.Exact` | old resources/libril/ril_event.cpp:137-157 | the descriptor set is exactly that of the watched events, each sits in the slot its index names, descriptors are distinct |
| `WatchTable.AllReadyTaken` | old resources/libril/ril_event.cpp:183-201 | with the count that `select` returns, every ready slot is taken (a counting argument over the slots) |
| `WatchTable.ReadyStops` | old resources/libril/ril_event.cpp:183-201 | stopping the scan after n events passes over nothing that a full scan would queue |
| `WatchTable.ProcessReadReadies` | old resources/libril/ril_event.cpp:183-201 | the ready events join the pending list once each, in slot order; exactly the queued non-persistent ones lose their slot |
| `WatchTable.LoopPass` | old resources/libril/ril_event.cpp:346-385 | one pass fires exactly the expired timers in order of deadline, then the ready events in slot order; the timers their callbacks arm join the unexpired ones in order of deadline |
| `CommandChannel.AnswersOnce` | old resources/libril/ril.cpp:3578-3662 | in every run every response answers a request that some step of the run read, on the connection it is credited to and with the token that step handed over, never a local one; no two responses go back to the same step, however often a request is completed |
| `CommandChannel.TokensAsRead` | old resources/libril/ril.cpp:375-433 | in every run the requests from the socket have exactly the tokens that were read while connected, in that order |
| `CommandChannel.CancelledNeverAnswered` | old resources/libril/ril.cpp:3062-3082 | a request that is cancelled or local while listed is never answered, whatever follows |
| `CommandChannel.NoAnswerCrossesReconnect` | old resources/libril/ril.cpp:3084-3128 | every response goes out on the connection its request was read on, in every run that accepts a connection only while no response is in flight |
| `CommandChannel.CrossingIffInFlight` | old resources/libril/ril.cpp:3606-3662 | the condition is exact: after an accept an answer can cross over if and only if a response was in flight at that moment |
| `CommandChannel.CrossingExample` | old resources/libril/ril.cpp:3606-3662 | a run in which an answer crosses: read, take off the list, reconnect, write |
| `CommandChannel.CompleteListed` | old resources/libril/ril.cpp:3606-3662 | an uninterrupted completion removes the request and writes it if it is answerable and a connection is open |
| `CommandChannel.CompleteUnlisted` | old resources/libril/ril.cpp:3578-3603 | completing a request that is not on the list changes nothing |
| `PendingRequests.Channel.Push` | old resources/libril/ril.cpp:375-433 | the new node has the token and kind handed over, is not cancelled, and becomes the head of a well-formed list, which shows the step of the run model |
| `PendingRequests.Channel.ProcessCommandBuffer` | old resources/libril/ril.cpp:375-433 | a request from the socket is listed first, with the token that was read |
| `PendingRequests.Channel.IssueLocalRequest` | old resources/libril/ril.cpp:341-373 | the same for a local request, with token 0xffffffff |
| `PendingRequests.Channel.CloseCommandSocket` | old resources/libril/ril.cpp:3084-3128 | closing sets the descriptor to none and leaves the list alone |
| `PendingRequests.Channel.Accept` | old resources/libril/ril.cpp:3162-3242 | accepting starts the next connection epoch, whose number the descriptor then stands for, and leaves the list alone |
| `PendingRequests.Channel.OnCommandsSocketClosed` | old resources/libril/ril.cpp:3062-3082 | the walk marks every listed request cancelled and relinks nothing: afterwards each node is, and they are the same nodes |
| `PendingRequests.Channel.CheckAndDequeue` | old resources/libril/ril.cpp:3578-3603 | found exactly when listed; exactly that node is bypassed through the pointer to a pointer and the chain stays well formed |
| `PendingRequests.Channel.OnRequestComplete` | old resources/libril/ril.cpp:3606-3662 | refines the run model: a response exactly for a listed, non-local, uncancelled request while connected |
| `WakeLock.HeldLockHasItsTimer` | old resources/libril/ril.cpp:3861-3875 | in every run a held lock has exactly one scheduled uncancelled release, the one `s_last_wake_timeout_info` names |
| `WakeLock.ReleasedExactly` | old resources/libril/ril.cpp:3820-3958 | in every run a step releases the held lock if and only if it fires the timer of the latest lock-taking response, or is a response whose last lock-taking one, nested ones included, fails to marshal |
| `WakeLock.RespondHeld` | old resources/libril/ril.cpp:3861-3875 | whatever responses are nested, the lock is left as the last lock-taking one entered leaves it |
| `WakeLock.RespondSchedules` | old resources/libril/ril.cpp:3820-3958 | a response schedules exactly one release for each lock-taking response in it that marshals; callbacks scheduled before stay, at most cancelled |
| `WakeLock.FailedResponseReleases` | old resources/libril/ril.cpp:3861-3875 | a run in which a failing response releases the lock while the earlier response's timer is still scheduled |
| `WakeLock.Lock.OnUnsolicitedResponse` | old resources/libril/ril.cpp:3820-3958 | on the heap, with cancelling as a write through `s_last_wake_timeout_info`, the lock is left as the last lock-taking response leaves it, and if held it has its live timer |
| `WakeLock.Lock.ScheduleRelease` | old resources/libril/ril.cpp:3937-3958 | the pointer write cancels exactly the previous release; the new one is scheduled last, is the one named, and is the only live one |
| `WakeLock.Lock.UserTimerCallback` | old resources/libril/ril.cpp:3381-3395 | a held lock that has its timer is released exactly if the fired object is that timer, which is then forgotten; only that object is scheduled no more |
| `WakeLockThreads.HeldLockIsReleased` | old resources/libril/ril.cpp:3381-3395 | with every read and write of the two threads a step of its own, in every run a held lock has between responses a release that is scheduled and not cancelled, or one that is running |
| `WakeLockThreads.FieldNamesLiveTimer` | old resources/libril/ril.cpp:3937-3958 | in every run in which no clearing of `s_last_wake_timeout_info` straddles a response, at most one release is live between responses, and it is the one named |
| `WakeLockThreads.NameLostIff` | old resources/libril/ril.cpp:3381-3395 | the condition is exact: a step leaves a live release without its name if and only if it clears the field after a response has replaced what was tested |
| `WakeLockThreads.StraddleExample` | old resources/libril/ril.cpp:3381-3395 | a run in which that happens, after which the unnamed release lets the lock go early |
| `WakeLockThreads.ReleasedEarlyIff` | old resources/libril/ril.cpp:3381-3395 | a release that has read its parameter lets the lock go while a later one is live if and only if the field names another by then |
| `WakeLockThreads.LateCancelExample` | old resources/libril/ril.cpp:3937-3958 | a run in which a cancellation comes too late for the release that it cancels |
| `ListHead.Node.constructor` | old resources/hardware_ril_samsung-ril/utils.c:32-48 | the new node is linked between its neighbours |
| `ListHead.List.Append` | old resources/hardware_ril_samsung-ril/samsung-ril.c:524-567 | registering appends: the chain stays well linked and its contents grow by the entry at the end |
| `ListHead.List.Bypass` | old resources/hardware_ril_samsung-ril/utils.c:50-62 | the chain stays well linked in both directions and loses exactly that position |
| `ListHead.List.Remove` | old resources/hardware_ril_samsung-ril/samsung-ril.c:569-610 | unregistering unlinks the first entry that satisfies the test and nothing else, and nothing if there is none |
| `ListHead.List.Find` | old resources/hardware_ril_samsung-ril/samsung-ril.c:651-678 | the node of the first entry that satisfies the test, null exactly when none does |
| `ListHead.List.Flush` | old resources/hardware_ril_samsung-ril/ipc.c:575-612 | flushing empties the list |
| `FmtNumbers.NextIsNth` | old resources/hardware_ril_samsung-ril/ipc.c:88-105 | the byte counter draws ((k-1) mod 254)+1 at the k-th draw, never 0 or 0xff |
| `FmtNumbers.SameNumber` | old resources/hardware_ril_samsung-ril/ipc.c:88-105 | two draws give the same number exactly when they are a multiple of 254 apart |
| `FmtNumbers.FirstClash` | old resources/hardware_ril_samsung-ril/ipc.c:88-105 | the first clash is exactly 254 draws later |
| `FmtNumbers.AskingAgainDrawsNothing` | old resources/hardware_ril_samsung-ril/ipc.c:107-124 | asking again for a token gives the same number, from 1 to 254, and draws none |
| `FmtNumbers.TokenRoundTrip` | old resources/hardware_ril_samsung-ril/ipc.c:126-140 | number to token inverts token to number exactly for requests that no earlier listed request shadows by a draw a multiple of 254 away |
| `FmtNumbers.RecentRoundTrip` | old resources/hardware_ril_samsung-ril/ipc.c:107-140 | if every live number was drawn within the last 254 draws, live numbers are distinct and the round trip is the identity |
| `FmtNumbers.FmtClient.Seq` | old resources/hardware_ril_samsung-ril/ipc.c:88-105 | the counter code draws the closed-form number, from 1 to 254, and keeps every request's number that of its own draw |
| `FmtNumbers.FmtClient.NumberOf` | old resources/hardware_ril_samsung-ril/ipc.c:107-124 | the first time a number is drawn and written into the listed request, later it is repeated, 0xff for an unknown token |
| `FmtNumbers.FmtClient.Unregister` | old resources/hardware_ril_samsung-ril/ipc.c:533-573 | the node with that kind and token is unlinked, and numbering stays right |
| `FmtNumbers.FmtClient.TokenOf` | old resources/hardware_ril_samsung-ril/ipc.c:126-140 | the token of the first request with that number, 0 for none |
| `FmtNumbers.FmtClient.Flush` | old resources/hardware_ril_samsung-ril/ipc.c:684-708 | every node is unlinked, and the next request to ask gets number 1 |
| `GenericResponse.ConsumesExactlyOldest` | old resources/hardware_ril_samsung-ril/gen.c:224-279 | exactly the oldest expectation with that number goes; all others stay in order, and so does all the callback registered, even under the same number |
| `GenericResponse.SecondResponse` | old resources/hardware_ril_samsung-ril/gen.c:140-173 | a second response meets the next oldest expectation of that number, or none |
| `GenericResponse.Expectations.Register` | old resources/hardware_ril_samsung-ril/gen.c:28-64 | appends, with an identity of its own |
| `GenericResponse.Expectations.Remove` | old resources/hardware_ril_samsung-ril/gen.c:66-100 | unregistering removes by identity, not by number |
| `GenericResponse.Expectations.PhoneRes` | old resources/hardware_ril_samsung-ril/gen.c:224-279 | on the linked list exactly the oldest expectation of the number goes and what the callback registered stays; ignored, mismatched, called back, completed or left alone exactly as that expectation and the answer say |
| `GenericResponse.Expectations.Flush` | old resources/hardware_ril_samsung-ril/gen.c:102-138 | every expectation is unlinked |
| `RequestStore.SetAppends` | old resources/hardware_ril_samsung-ril/samsung-ril.c:1071-1087 | set appends to the queue of its kind and touches no other; empty data is refused |
| `RequestStore.GetPops` | old resources/hardware_ril_samsung-ril/samsung-ril.c:1102-1127 | get pops the entry that size_get measured, from its own kind only |
| `RequestStore.FreeEmpties` | old resources/hardware_ril_samsung-ril/samsung-ril.c:1053-1069 | free empties the queue of its kind and touches no other |
| `RequestStore.SetUniqReplaces` | old resources/hardware_ril_samsung-ril/samsung-ril.c:1089-1100 | set_uniq leaves exactly the new entry of its kind, none for empty data, and touches no other kind |
| `RequestStore.AtMostOne` | old resources/hardware_ril_samsung-ril/samsung-ril.c:1089-1100 | in every run that stores a kind only by set_uniq there is at most one entry of it |
| `RequestStore.SecondGetFindsNothing` | old resources/hardware_ril_samsung-ril/sim.c:282-287 | so the second get of the GET_SIM_STATUS handler always finds nothing |
| `DispatchFates.NothingLeft` | old resources/hardware_ril_samsung-ril/sim.c:282-287 | the same in every run of the daemon that stores SIM status only by set_uniq, falls of the radio included |
| `RequestStore.Store.DataSet` | old resources/hardware_ril_samsung-ril/samsung-ril.c:1071-1087 | on the linked list the data joins the end of the queue of its kind; -1 and no change for empty data |
| `RequestStore.Store.DataFree` | old resources/hardware_ril_samsung-ril/samsung-ril.c:1053-1069 | the loop that searches and unlinks ends with no entry of the kind |
| `RequestStore.Store.DataSetUniq` | old resources/hardware_ril_samsung-ril/samsung-ril.c:1089-1100 | exactly the new entry of the kind is left |
| `RequestStore.Store.DataGet` | old resources/hardware_ril_samsung-ril/samsung-ril.c:1113-1127 | the oldest entry of the kind is unlinked and handed over, and its queue is one shorter |
| `RequestStore.Store.GetSimStatus` | old resources/hardware_ril_samsung-ril/sim.c:262-306 | a stored status is used if it is large enough; afterwards none is stored and other kinds are untouched |
| `RequestStore.Store.DataFlush` | old resources/hardware_ril_samsung-ril/samsung-ril.c:993-1026 | every stored entry is unlinked |
| `Scheduler.MirrorHolds` | old resources/hardware_ril_samsung-ril/samsung-ril.c:524-610 | in every run, while the FMT client exists, its list equals the queue entry by entry, all tokens are distinct, and a non-NULL token from a number is live |
| `Scheduler.TokenIsLive` | old resources/hardware_ril_samsung-ril/ipc.c:126-140 | from any mirrored state a number stands for a queued request or for NULL |
| `Scheduler.ReportedAtMostOnce` | old resources/hardware_ril_samsung-ril/samsung-ril.c:804-829 | in every run each arrived request is in exactly one place, queued, reported or dropped; each report has the token of its own request, and none is reported twice |
| `DispatchFates.ArrivalsAsHanded` | old resources/hardware_ril_samsung-ril/samsung-ril.c:1264-1401 | in every run the requests accounted for are exactly those that were handed over, with their kinds and tokens, in that order |
| `DispatchFates.DispatchFate` | old resources/hardware_ril_samsung-ril/samsung-ril.c:852-888 | a dispatched request meets the fate that is due, seen on queue, reports and drops: refused without a handler, as the handler wants on an early way out, put off or answered while the radio is not ready, put off while a tested one is in flight, else sent |
| `DispatchFates.BusyIsPutOff` | old resources/hardware_ril_samsung-ril/sim.c:1085-1097 | one that finds a request in flight that its handler tests for stays at its place in the queue, nothing is reported or dropped, and the next pass tries it again |
| `DispatchFates.RadioTable` | old resources/hardware_ril_samsung-ril/samsung-ril.c:1189-1221 | which kinds go on with the radio off or on, with the SIM not ready or locked, and with the SIM ready |
| `DispatchFates.AnswerFate` | old resources/hardware_ril_samsung-ril/ipc.c:126-140 | an answer reports and removes exactly the first request that its number was given to, and changes nothing if there is none |
| `DispatchFates.InFlightFate` | old resources/hardware_ril_samsung-ril/samsung-ril.c:680-709 | a message for a kind reports and removes exactly the first request of it that is in flight, and changes nothing if there is none |
| `DispatchFates.DestroyIsFinal` | old resources/hardware_ril_samsung-ril/ipc.c:214-255 | when the FMT client gives up its expectations are gone, and in every continuation no number stands for a request and no answer completes one |
| `DispatchFates.StoreAsAsked` | old resources/hardware_ril_samsung-ril/samsung-ril.c:993-1127 | in every run the request data are what the store operations of that run leave, with a flush at each fall of the radio |
| `Scheduler.OneInFlight` | old resources/hardware_ril_samsung-ril/samsung-ril.c:680-709 | in every run at most one request of each kind that tests for itself is HANDLED, and one of the three DTMF kinds jointly |
| `Scheduler.TwoInFlight` | old resources/hardware_ril_samsung-ril/sim.c:861-909 | for any kind that waits for the modem and is not tested for, a run with the SIM ready puts two in flight |
| `Scheduler.SingleFlightIff` | old resources/hardware_ril_samsung-ril/samsung-ril.c:852-888 | single flight of a kind holds in all runs if and only if its handler tests for that very kind or never waits for the modem |
| `Scheduler.RunSending` | old resources/hardware_ril_samsung-ril/misc.c:261-287 | in every run only kinds whose handler can return HANDLED are in flight; LAST_CALL_FAIL_CAUSE, LAST_DATA_CALL_FAIL_CAUSE and SCREEN_STATE never are |
| `Scheduler.UnavailableDrains` | old resources/hardware_ril_samsung-ril/samsung-ril.c:1133-1187 | the change to UNAVAILABLE reports each queued non-NULL token once, in order, with RADIO_NOT_AVAILABLE, and leaves queue, store, FMT list and expectations empty, counter 0 |
| `Scheduler.DrainReports` | old resources/hardware_ril_samsung-ril/samsung-ril.c:1150-1162 | the draining loop ends with an empty queue and reports exactly the queued requests, in order |
| `Scheduler.GenericConsumesOldest` | old resources/hardware_ril_samsung-ril/gen.c:224-279 | in every run a generic response takes exactly the oldest expectation of its number and keeps what the callback adds |
| `Scheduler.TakenOnce` | old resources/hardware_ril_samsung-ril/gen.c:224-279 | in every run each expectation is taken by at most one response, which then reports one completion or none as that expectation asks: always, only on failure, or as its callback decides, for the live request of the number |
| `DispatchFates.NewExpectation` | old resources/hardware_ril_samsung-ril/gen.c:28-64 | in every run a registration lists one expectation more, last, under an identity that was never listed or taken |
| `Scheduler.SharedNumber` | old resources/hardware_ril_samsung-ril/ipc.c:88-140 | for every kind that waits for the modem and is not tested for, a run with the SIM ready in which two requests in flight share a number, because 253 others were drawn between theirs: the answer to the second completes the first |
| `RequestQueue.UnregisterMirrored` | old resources/hardware_ril_samsung-ril/ipc.c:533-573 | unregistering by identity in the queue and by kind and token in the client keeps the two lists equal |
| `RequestQueue.EnqueueMirrored` | old resources/hardware_ril_samsung-ril/ipc.c:499-531 | registering a new token keeps the two lists equal and tokens distinct |
| `RequestQueue.SetStatusSingleFlight` | old resources/hardware_ril_samsung-ril/samsung-ril.c:852-888 | a request made HANDLED only when its test finds none keeps single flight |
| `DispatchSweep.SweepRestarts` | old resources/hardware_ril_samsung-ril/samsung-ril.c:773-802 | searching again from the head after each dispatch is the same as one sweep |
| `DispatchSweep.SweepEffect` | old resources/hardware_ril_samsung-ril/samsung-ril.c:890-931 | a sweep leaves no PENDING request, keeps HANDLED ones as they are, adds none, keeps arrival order |
| `DispatchSweep.SweepFates` | old resources/hardware_ril_samsung-ril/samsung-ril.c:852-931 | every request that a sweep dispatches meets the fate that is due by its kind, the radio, its handler and the requests in flight at that moment, and is found so at the end: in flight, put off, answered with that error, or dropped |
| `DispatchSweep.PutOffStays` | old resources/hardware_ril_samsung-ril/samsung-ril.c:890-931 | after a pass a request that found one in flight that its handler tests for is still in the queue, put off |
| `DispatchSweep.NullTokenSpins` | old resources/hardware_ril_samsung-ril/samsung-ril.c:890-931 | with a NULL token, which libril does not use, a completed request stays PENDING: after any number of rounds the queue is as it was |
| `DispatchLoop.Ril.RequestComplete` | old resources/hardware_ril_samsung-ril/samsung-ril.c:804-829 | the node of the token is unlinked from both lists and exactly that completion is reported; the token is not found again; a NULL token has no effect |
| `DispatchLoop.Ril.OnRequest` | old resources/hardware_ril_samsung-ril/samsung-ril.c:1264-1401 | a queued request with the same token is dropped first, without a report, then a node with the given kind and token is appended PENDING to both lists, which stay mirrored |
| `DispatchLoop.Ril.Unlist` | old resources/hardware_ril_samsung-ril/samsung-ril.c:569-610 | the request's node goes from the queue by address and from the client's list by kind and token: the same entry |
| `DispatchLoop.Ril.OnCancel` | old resources/hardware_ril_samsung-ril/samsung-ril.c:1427-1444 | the request of the token leaves both lists and is dropped, nothing is reported, and the token is not found again |
| `DispatchLoop.Ril.RequestDispatch` | old resources/hardware_ril_samsung-ril/samsung-ril.c:852-888 | on the linked lists, dispatching gives the request the fate that is due and keeps the whole invariant of the scheduler: mirror, accounting, single flight |
| `DispatchLoop.Ril.Ask` | old resources/hardware_ril_samsung-ril/samsung-ril.c:680-709 | the walk for a HANDLED request of the tested kinds: what the handler comes to is what is due, so it puts its own off exactly when the walk finds one |
| `DispatchLoop.Ril.Pass` | old resources/hardware_ril_samsung-ril/samsung-ril.c:890-931 | one pass ends; every PENDING or UNHANDLED request is dispatched exactly once, in arrival order, and meets the fate that is due; none is PENDING after it, HANDLED ones are untouched; nothing happens while unavailable |
| `DispatchLoop.Ril.CompleteAll` | old resources/hardware_ril_samsung-ril/samsung-ril.c:1150-1162 | the draining loop ends with an empty queue and one report for each non-NULL token, in order |
| `DispatchLoop.Ril.FlushFmt` | old resources/hardware_ril_samsung-ril/ipc.c:684-708 | once the queue is empty, the client's list is empty, its counter 0 and the invariant of the scheduler kept |
| `RadioState.GoDown` | old resources/hardware_ril_samsung-ril/samsung-ril.c:1133-1187 | the draining loop and the flushing loops over queue, store, expectations and FMT client leave all four lists empty, with the reports of the draining loop |
| `RadioState.RadioStateUpdate` | old resources/hardware_ril_samsung-ril/samsung-ril.c:1133-1187 | on the linked lists a change of the radio state is the step of the scheduler; one to UNAVAILABLE empties everything after one report for each non-NULL token |
| `DataConnections.NoRoomIffFull` | old resources/hardware_ril_samsung-ril/data.c:216-280 | no context id is free exactly when as many connections as ids are open (pigeonhole over the list) |
| `DataConnections.LowestFree` | old resources/hardware_ril_samsung-ril/data.c:243-249 | every lower id is taken and the one returned is free |
| `DataConnections.ContextIdsStayDistinct` | old resources/hardware_ril_samsung-ril/data.c:72-130 | in every run ids are distinct and within 1..count, room is lacking exactly when all are used, a connection without a token is up, and a data call is completed only while it is queued |
| `DataConnections.CallStatusInv` | old resources/hardware_ril_samsung-ril/data.c:871-1022 | every branch of the call status message keeps ids distinct and completes only queued requests (what each branch does is in `DataCalls`) |
| `DataCalls.StatusOutcome` | old resources/hardware_ril_samsung-ril/data.c:871-1022 | for every branch of the message: whether the connection goes, and then its id is free, or comes up, with its token cleared for a set-up that is done, or stays; all others stay; and exactly which completion is reported, if any |
| `DataCalls.SuccessMeans` | old resources/hardware_ril_samsung-ril/data.c:871-1022 | a reported success means: for a deactivation, the context id is free again; for a set-up, the connection is up and waits for nothing, unless the modem disabled it first, and then it is gone |
| `DataCalls.SetupOutcome` | old resources/hardware_ril_samsung-ril/data.c:455-544 | a set-up that is sent lists one connection more under the lowest free id and reports nothing; exactly without room, interface or sending it fails and lists none |
| `DataCalls.DeactivateOutcome` | old resources/hardware_ril_samsung-ril/data.c:726-793 | a deactivation that is sent is noted in the connection of its id; otherwise it fails, and the connection, if there is one, goes |
| `DataCalls.ContextOutcome` | old resources/hardware_ril_samsung-ril/data.c:410-453 | a good answer for a queued request changes nothing; a bad one fails it and frees its connection's id |
| `DataCalls.UpAndDown` | old resources/hardware_ril_samsung-ril/data.c:455-1022 | a call set up, enabled, deactivated and disabled, from every state with room, leaves the connections and free ids as they were and reports two successes |
| `DataCalls.Calls.SetupDataCall` | old resources/hardware_ril_samsung-ril/data.c:455-544 | the same on the linked list of connections, with the token written into the new one and the connection stopped when sending fails |
| `DataCalls.Calls.DeactivateDataCall` | old resources/hardware_ril_samsung-ril/data.c:726-793 | the same for the deactivation |
| `DataCalls.Calls.ContextCallback` | old resources/hardware_ril_samsung-ril/data.c:410-453 | the same for the answer; one for no queued request reports nothing |
| `DataCalls.Calls.CallStatus` | old resources/hardware_ril_samsung-ril/data.c:871-1022 | the same for the message, branch by branch on the nodes with the error exit, where stopping twice is stopping once |
| `DataConnections.AnswerAfterCancel` | old resources/hardware_ril_samsung-ril/data.c:410-453 | an answer for a cancelled request removes a connection if and only if it is a failure and some connection has no token: then the first of those, which is up |
| `DataConnections.AnswerAfterCancelExample` | old resources/hardware_ril_samsung-ril/data.c:410-453 | a run from the start in which that stops an enabled connection and leaves the cancelled one |
| `DataConnections.Connections.StartConnection` | old resources/hardware_ril_samsung-ril/data.c:216-280 | the loop picks the lowest free id; with its interface present it fails exactly when all ids are in use |
| `DataConnections.Connections.StopConnection` | old resources/hardware_ril_samsung-ril/data.c:282-321 | exactly the connection of that identity is unlinked and its context id is free again; one already gone changes nothing |
| `Dtmf.StartsAreSeparated` | old resources/hardware_ril_samsung-ril/call.c:362-684 | in every run that cancels only when no callback is waited for and a sounding tone is stored, two tone starts have between them an answer to a stop sent after the first, or a restart of the modem |
| `Dtmf.WithoutCancellation` | old resources/hardware_ril_samsung-ril/call.c:362-684 | runs without any cancellation satisfy that condition |
| `DtmfTones.BurstsConserved` | old resources/hardware_ril_samsung-ril/call.c:362-684 | no burst is lost, changed or played twice: over every run, with cancellations and bad answers, the tones of the bursts played and of those still stored are exactly those of the bursts taken up, since the latest restart of the modem |
| `DtmfTones.CallbackOutcome` | old resources/hardware_ril_samsung-ril/call.c:362-417 | what the callback sends, awaits and leaves in the store: the stored tone, then the oldest stored burst, with their tones |
| `DtmfTones.AnswerOutcome` | old resources/hardware_ril_samsung-ril/gen.c:224-279 | what any answer leads to, by the oldest expectation of its number: the callback, the end of the request, nothing, or UNAVAILABLE |
| `DtmfTones.StartOutcome` | old resources/hardware_ril_samsung-ril/call.c:557-625 | one command goes out: a stop if a tone is stored, else the start of the asked tone, which is stored |
| `DtmfTones.BurstOutcome` | old resources/hardware_ril_samsung-ril/call.c:472-535 | one command goes out: a stop if a tone is stored, with the burst stored, else the asked burst |
| `DtmfLimits.CancelSafeIff` | old resources/hardware_ril_samsung-ril/call.c:362-684 | from every state that satisfies the invariant of the runs, all safe continuations after a cancellation stay separated if and only if no callback is waited for and a sounding tone is stored |
| `DtmfLimits.LostTone` | old resources/hardware_ril_samsung-ril/call.c:557-625 | a tone that sounds and is not stored is not stopped by the next start |
| `DtmfLimits.StaleCallback` | old resources/hardware_ril_samsung-ril/call.c:362-417 | with nothing stored, the callback of a cancelled request starts a tone over the next request's |
| `DtmfLimits.TwoCallbacks` | old resources/hardware_ril_samsung-ril/call.c:362-417 | with a tone stored, the callbacks of the cancelled request and of the next both start one |
| `DtmfLimits.CancelExample` | old resources/hardware_ril_samsung-ril/call.c:651-684 | the shortest run: start, answer, stop, cancel, start |
| `DtmfCode.Tones.DtmfStart` | old resources/hardware_ril_samsung-ril/call.c:557-625 | on the linked store and expectations: a stored tone is stopped first, otherwise the new one is started, with its own tone; it is stored, and nothing else is sent; put off while a DTMF request is in flight; the invariant is kept |
| `DtmfCode.Tones.DtmfBurst` | old resources/hardware_ril_samsung-ril/call.c:472-535 | the same for a burst: played at once without a stored tone, otherwise stored behind a stop, and the tone forgotten |
| `DtmfCode.Tones.DtmfStop` | old resources/hardware_ril_samsung-ril/call.c:651-684 | exactly a stop is sent, no tone is stored any more and the request waits for the answer; the invariant is kept |
| `DtmfCode.Tones.ContDtmfCallback` | old resources/hardware_ril_samsung-ril/call.c:362-417 | after a good answer the stored tone is started and stays stored, and the oldest stored burst is played, awaited and taken out, each exactly if there is one; after a bad one the request fails and nothing else changes |
| `DtmfCode.Tones.PhoneRes` | old resources/hardware_ril_samsung-ril/gen.c:224-279 | answer, expectation and callback together on the linked lists: what follows is what the oldest expectation asks for, seen on log, store and expectations, and the invariant is kept |
| `FacilityLock.LockSafety` | old resources/hardware_ril_samsung-ril/sim.c:422-472 | in every undisturbed run a lock is sent as asked for, an FD lock only after its PIN2 was accepted, each request completes at most once, and SUCCESS means both answers were good |
| `FacilityLock.OwnResultReported` | old resources/hardware_ril_samsung-ril/sim.c:1279-1300 | the request's own result is reported once: SUCCESS exactly for a good answer, PASSWORD_INCORRECT exactly for codes 0x10 and 0x0c, GENERIC_FAILURE exactly for all others; no tries left exactly for a bad 0x0c, the modem's number otherwise |
| `FacilityLock.FirstResultReported` | old resources/hardware_ril_samsung-ril/sim.c:1237-1303 | whatever stored result is the first found is reported in that way; with none the request stays in flight |
| `FacilityLock.AnswerGoesOn` | old resources/hardware_ril_samsung-ril/sim.c:422-472 | a good PIN2 sends exactly the lock asked for; any other answer asks for lock information and stores exactly its first five bytes |
| `FacilityLock.AnswerIsReported` | old resources/hardware_ril_samsung-ril/sim.c:422-472 | so the last answer is what the next lock information reports, if it finds no other result |
| `FacilityLock.ShortAnswer` | old resources/hardware_ril_samsung-ril/gen.c:224-279 | a response that is too short fails the request in flight with RADIO_NOT_AVAILABLE and leaves nothing listed or stored |
| `FacilityLock.LockDataShows` | old resources/external_libsamsung-ipc/samsung-ipc/sec.c:59-83 | facility, switch and a password that fits can be read back from the lock data, which has a fixed size; a longer one is cut, a shorter one padded with zeros |
| `FacilityLock.Pick` | old resources/hardware_ril_samsung-ril/sim.c:1265-1274 | the first kind in scan order that holds a whole result, with none before it |
| `FacilityLockLimits.AloneSafety` | old resources/hardware_ril_samsung-ril/sim.c:523-602 | runs with no other PIN request and no cancellation are undisturbed, so all of that holds of them |
| `FacilityLockLimits.ReportRightIff` | old resources/hardware_ril_samsung-ril/sim.c:1237-1303 | the report after a lock information is right if and only if the first stored result in scan order is not good or the lock was accepted; while the lock's own result is stored that is whether it is good |
| `FacilityLockLimits.InfoSafeIff` | old resources/hardware_ril_samsung-ril/sim.c:1237-1303 | all undisturbed continuations after it are safe if and only if the first result found is the lock's own, or, when that is lost, no good one is found unless the lock was accepted |
| `FacilityLockLimits.OtherInfoSafeIff` | old resources/hardware_ril_samsung-ril/sim.c:1237-1303 | a lock information for another request is safe if and only if it does not take the stored lock data |
| `FacilityLockLimits.GoneInfoSafeIff` | old resources/hardware_ril_samsung-ril/sim.c:1237-1303 | the same for a lock information of a lock request that is gone |
| `FacilityLockLimits.CancelSafeIff` | old resources/hardware_ril_samsung-ril/sim.c:422-472 | after cancelling a lock request all undisturbed continuations are safe if and only if nothing was stored for it |
| `FacilityLockLimits.StaleLockSent` | old resources/hardware_ril_samsung-ril/sim.c:422-472 | otherwise what it stored is sent as the lock of the next request |
| `FacilityLockLimits.OtherResultExample` | old resources/hardware_ril_samsung-ril/sim.c:1237-1303 | a refused PIN2 is reported as SUCCESS when ENTER_SIM_PIN has a good result stored |
| `FacilityLockLimits.OtherInfoExample` | old resources/hardware_ril_samsung-ril/sim.c:1237-1303 | SUCCESS is reported for a lock that was never sent, because another lock information took the lock data |
| `FacilityLockLimits.LostResultExample` | old resources/hardware_ril_samsung-ril/sim.c:1237-1303 | a refused lock is reported as SUCCESS: another lock information took its result, and then another request's good one is found |
| `FacilityLockCode.Sim.SetFacilityLock` | old resources/hardware_ril_samsung-ril/sim.c:523-602 | on the linked store and expectations: the lock data says what was asked for; an FD request sends PIN2 with its lock stored, any other sends its lock; the invariant is kept |
| `FacilityLockCode.Sim.SecCallback` | old resources/hardware_ril_samsung-ril/sim.c:422-472 | the lock goes out, as stored, only after a good answer to PIN2; any other answer is stored and lock information asked for; an answer for any other request changes nothing |
| `FacilityLockCode.Sim.PhoneRes` | old resources/hardware_ril_samsung-ril/gen.c:224-279 | answer, expectation and callback together on the linked lists, with what goes out and is stored; a response that is too short empties everything; the invariant is kept |
| `FacilityLockCode.Sim.TakeStored` | old resources/hardware_ril_samsung-ril/sim.c:1265-1274 | the loop over the kinds takes exactly the entry the scan order prefers |
| `FacilityLockCode.Sim.LockInformation` | old resources/hardware_ril_samsung-ril/sim.c:1237-1303 | undisturbed, the exchange stays safe; if the request's own result comes first, it is what is reported, with the number of tries left |

## Left out

- Sockets, `select`, pipes, threads, mutexes and the wake-lock files: only their effects appear, as steps in any order or as parameters; nothing is claimed about liveness or about `request_loop_mutex`.
- Parcel marshalling and the command tables of ril.cpp, radio-state translation, and the debug socket, which closes the command socket without cancelling requests.
- Reuse of a descriptor number by a later connection: connections are told apart by their order.
- Overflow of `time_t` and of counters other than the sequence byte.
- Allocation and freeing: an unlisted object is only never found again; failures of allocation are not modelled.
- `ril_data_connection_flush` (old resources/hardware_ril_samsung-ril/data.c:132-164), which goes on using a node that its own call unlisted.
- The SIM_IO branch of `ipc_sec_callback` and the PIN and PUK handlers: other PIN requests appear in `FacilityLock` only as what they store and take.
- rfs.c, srs.c, client.c, network, SMS and sound code, the libsamsung-ipc packers other than the lock data, and the Java side: they would only add easy members.
- WatchTable.Table.Add: negative descriptors, for which the source's descriptor set has no meaning, are excluded.
- WakeLock.HeldLockHasItsTimer: responses and timer callbacks are atomic here, although the code holds no lock across them; `WakeLockThreads` has their steps, for one thread that delivers responses, one after the other.
- WakeLock.Lock.OnUnsolicitedResponse: atomic in the same way.
- PendingRequests.Channel.OnRequestComplete: the heap method runs without interruption; the interleaving between taking a request off the list and writing its response is in `CommandChannel`.
- ListHead.List.Find: the object that a node points to is part of the node, so sharing one object between two lists is not modelled.
- Scheduler.OneInFlight: what a handler does besides its tests of the radio and for requests in flight, and its result, is a parameter of the step.
- DispatchLoop.Ril.Pass: requires non-NULL tokens, which libril's addresses are; handlers' results are a parameter, and none of them is PENDING.
- Dtmf.StartsAreSeparated: sequence numbers are identified with tokens, which `FmtNumbers.RecentRoundTrip` justifies within 254 draws; sending does not fail.
- FacilityLock.LockSafety: sequence numbers are identified with tokens in the same way; sending does not fail; the number of tries and the pin type of a lock information are not related to the card.
- FmtNumbers.FmtClient.Flush: the client's own list and counter; `RadioState.GoDown` flushes the expectations with it.
- DtmfCode.Tones.DtmfStart: registering an expectation and sending do not fail, nor in `DtmfBurst`, `DtmfStop` and `ContDtmfCallback`.
- FacilityLockCode.Sim.SetFacilityLock: registering an expectation and sending do not fail, nor in `SecCallback`.
- DataConnections.ContextIdsStayDistinct: for a fixed number of context ids; the call status message is taken with the SIM ready, as the code ignores it otherwise; the contents of the responses are left out.
