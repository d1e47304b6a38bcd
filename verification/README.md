# ns-3 federate of Eclipse MOSAIC: model and proofs

The federate couples the discrete-event simulator ns-3 to MOSAIC, which owns simulated time. This project models
its five core files in Dafny and proves what the coupling relies on: the event kernel keeps its list and its clock
straight, cutting or interrupting a time grant does not change the simulation, the replies END and PREEMPTED mean
what they say, node identities and removal hold over whole runs, and the length-prefixed framing is lossless up to
its bound.

## How it is organised

There are two layers. The first gives the fields of each object as a value and each method as a function of the
fields before the call; the results over all runs are proved about it. The second has the objects themselves, with
fields updated in place and the loops of the source; each method is proved to do exactly what the function says.

| file | content |
|---|---|
| `Wrappers.dfy`, `Types.dfy` | Option; manager calls, events, event ids, reasons for which the process ends |
| `ListScheduler.dfy` | the event list ordered by (timestamp, uid) |
| `Kernel.dfy`, `KernelTheory.dfy` | `MosaicSimulatorImpl` on values, its invariant, what callers get |
| `Bridge.dfy` | the bridge's fields, the bounded set of reported times |
| `Manager.dfy`, `ManagerTheory.dfy`, `ManagerEffects.dfy` | `MosaicNodeManager` and the proxy apps on values, identity, spare pool, exits, effects on ns-3 |
| `Federation.dfy` | the whole federate: actions of ns-3, one event, the grant loop, commands, runs |
| `Steps.dfy` | a run is made of small steps; a property that every step keeps holds at the end of every run |
| `Walks.dfy` | every moment of a run, within handlers and grants too, is reached by a walk of small steps, and so is each later moment |
| `KernelRuns.dfy`, `KernelCalls.dfy` | expiry, conservation, order and causality over all runs; what the kernel gives ns-3 |
| `ManagerRuns.dfy`, `Gates.dfy` | identity, permanent removal, reception, and when a message passes, over all runs |
| `Ledger.dfy` | what ns-3 and MOSAIC were told agrees with the tables: nothing is done twice, nothing left out |
| `ReportRuns.dfy`, `Wire.dfy` | announced times, stamps, the output protocol |
| `Grants.dfy`, `Replies.dfy`, `Termination.dfy` | composition and pre-emption of grants, meaning of the replies, end of the loop |
| `Discipline.dfy`, `NoExit.dfy` | orderly command streams never end the process over an id or the pool; with fitting kinds and addresses nothing but ns-3 ends it |
| `StartUp.dfy` | `OnStart` once, first, and final |
| `Channel.dfy`, `Routing.dfy` | varint framing, routes |
| `ProxyApp.dfy`, `NodeManager.dfy`, `Federate.dfy` | the classes, updated in place |
| `Witnesses.dfy` | three concrete runs in which the code does not do what one would expect |
| `FromTheStart.dfy` | the state after the handshake satisfies what the results assume |

The rest of ns-3 is one arbitrary deterministic function `Network`: from everything that reached ns-3 so far (events
fired, effects of manager calls, with time and next uid) to the finite list of actions it takes next: schedule,
schedule now or with a context, remove or cancel an event it holds the id of, stop, deliver a packet to a proxy app,
or fail in `SendTo`. Every result holds for all such functions, or for those that satisfy a stated assumption.

The assumptions are `Causal` (ns-3 asks for no negative delay), `AllInTime` (no deferred command arrives for a time
before Now) and, for termination only, `Bounded`. The bridge itself accepts a late command;
`LateCommandsTripTheAssertion` says exactly what follows, and `LateUpdateEndsTheProcess` is such a run. Identity,
removal, reception, announced times and start-up need none of the assumptions.

Results about "every moment" speak of walks: sequences of small steps, each possible where it is taken. `Walks.dfy`
shows that every run is such a walk, with all worlds within handlers and grants on it, and that from each moment of
a run each later one is reached by such a walk; `FromTheStart.dfy` states the results for the moments of runs.

Where the code and its documentation differ, the model follows the code. The README of the repository says that
publishing next events is disabled in the bridge (line 30); `writeNextTime` writes NEXT_EVENT in non-preemptive mode.
It says that REMOVE_NODE disables the apps (line 49); the loop fetches application 0 on each round, so the cell
application of a radio node stays on (`RemovalDisablesAllAppsIff`, with the run `RemovalLeavesTheCellAppOn`), and what
silences the node is the deactivation flag (`RemovalIsPermanent`). It says that the Wi-Fi channel of a message is
ignored (line 70); a channel other than CCH ends the process.

`NS_ASSERT` is active, as in the Debug configuration (premake5.lua:54-59): a failed assertion ends the process with
its own reason. `CreateWiredNode` installs no mobility model, so a position update for a wired node uses a null
pointer; the model ends the process with the reason `NullMobility`, `ExitConditions` says exactly when, and
`MovingAWiredNodeEndsTheProcess` is such a run.

## Model

| member | source | states |
|---|---|---|
| Walks.RunIsAWalk | src/mosaic-ns3-bridge.cc:105-121 | a run is a walk of small steps, each of which can happen where it is taken |
| Walks.HandlersAreMoments | src/mosaic-ns3-bridge.cc:219-226 | the world after any number of actions of ns-3 in reaction to any event of a grant is one of the moments of that walk |
| Walks.LaterMoment | src/mosaic-ns3-bridge.cc:105-121 | from each moment of a run each later one is reached by a walk, so that what is proved of walks holds between them |
| Walks.LongerTrail | src/mosaic-ns3-bridge.cc:219-226 | the walks with more and more rounds of a grant loop extend one another, also if the loop never ends |
| ListScheduler.InsertKeepsOrder | src/main.cc:162 | the event list stays strictly ordered by (timestamp, uid), with distinct uids, when an event with a new uid goes in |
| ListScheduler.RemoveKeepsOrder | src/mosaic-simulator-impl.cc:243-248 | taking an event out keeps the order, and no event with that uid is left |
| ListScheduler.InsertLast | src/mosaic-simulator-impl.cc:84-87 | inserting an event that lies behind all others appends it, so re-inserting a list in order rebuilds it |
| KernelTheory.InsertKeeps | src/mosaic-simulator-impl.cc:153-198 | an event scheduled at or after Now keeps the kernel's invariant: all queued keys above the last executed key, every issued event in exactly one place |
| KernelTheory.ScheduleIsSafeIffNotInThePast | src/mosaic-simulator-impl.cc:153-170 | Schedule accepts any absolute time; the invariant survives exactly if the time is not before Now, otherwise the past event becomes the head and the next assertion fails |
| KernelTheory.PopKeeps | src/mosaic-simulator-impl.cc:98-110 | the assertion on the clock holds, executed keys keep strictly increasing, the invariant is kept |
| KernelTheory.ExpiredIffGone | src/mosaic-simulator-impl.cc:219-226 | an issued id is not expired exactly if its event is queued and not cancelled; then Now plus GetDelayLeft is its time |
| KernelTheory.RemoveFindsItsEvent | src/mosaic-simulator-impl.cc:228-254 | Remove of an id that is not expired takes out exactly that event, which is always there, and leaves the id expired |
| KernelTheory.RemoveKeeps | src/mosaic-simulator-impl.cc:228-254 | Remove keeps the invariant, for destroy events, expired ids and pending ids |
| KernelTheory.CancelKeeps | src/mosaic-simulator-impl.cc:256-260 | Cancel keeps the invariant, in particular it never cancels an event whose handler ran |
| KernelTheory.CancelStopsItsEvent | src/mosaic-simulator-impl.cc:256-260 | Cancel of a pending event flags it and makes its id expired, leaves it in the list, and changes the expiry of no other id |
| KernelTheory.CancelOfGoneEvent | src/mosaic-simulator-impl.cc:228-260 | Cancel and Remove of an event that was executed or removed change nothing |
| KernelTheory.DestroyKeeps | src/mosaic-simulator-impl.cc:69-78 | Destroy keeps the invariant: no handler is called twice, and none that is cancelled |
| KernelTheory.AliveMeaning | src/mosaic-simulator-impl.cc:70-77 | the handlers Destroy calls are exactly those of the destroy events that are not cancelled, each once |
| KernelTheory.AliveInOrder | src/mosaic-simulator-impl.cc:70-77 | the handlers are called in the order of the destroy events |
| KernelTheory.ScheduleDestroyAdds | src/mosaic-simulator-impl.cc:200-207 | ScheduleDestroy appends an event that is not expired and shares its EventImpl with no other |
| KernelTheory.RemoveOfDestroyEvent | src/mosaic-simulator-impl.cc:229-241 | Remove of a destroy event takes out exactly that one and keeps the order of the rest |
| KernelTheory.DestroyCallsTheRest | src/mosaic-simulator-impl.cc:69-78 | Destroy calls the handler of each destroy event in the list that is not cancelled, once, and no other; afterwards all are expired |
| KernelTheory.EventsAreConserved | src/mosaic-simulator-impl.cc:98-110 | inserted events are executed, removed or queued, each in exactly one way; the counters agree with the list |
| KernelTheory.EveryReferenceReleasedOnce | src/mosaic-simulator-impl.cc:60-67 | disposing of the kernel leaves each inserted event's list reference released exactly once |
| KernelRuns.RunIsSound | src/mosaic-simulator-impl.cc:98-198 | after every run the kernel's invariant holds, no kernel assertion has failed, and ns-3 holds no id of a deferred command |
| KernelRuns.WalkIsSound | src/mosaic-simulator-impl.cc:98-198 | the same at every moment of a run, within handlers and grants |
| KernelRuns.ExpiryIsMembership | src/mosaic-simulator-impl.cc:219-285 | at every moment, within handlers too, IsExpired, a test on two numbers and a flag, decides membership in the list; Remove takes out exactly the event; the remaining delay is exact |
| KernelRuns.RunsConserveEvents | src/mosaic-simulator-impl.cc:60-67 | at every moment events are conserved, and disposing then has released each list reference exactly once |
| KernelRuns.CancelledHandlersNeverRun | src/mosaic-simulator-impl.cc:256-260 | from the moment it is cancelled or removed, within a handler or not, an event's handler never runs, nor did it before |
| KernelCalls.StoppedForGood | src/mosaic-simulator-impl.cc:228-260 | from the moment ns-3 cancels or removes a queued event by its id, in a handler or not, its id is expired and its handler is never called; other ids are not concerned |
| KernelCalls.DestroyEventStoppedForGood | src/mosaic-simulator-impl.cc:228-260 | the same for destroy events: they are not called at shut-down |
| KernelCalls.ShutDownCallsDestroyEvents | src/mosaic-simulator-impl.cc:69-78 | SHUT_DOWN at any moment calls exactly the destroy events still in the list and not cancelled, each once |
| KernelCalls.ScheduledEventIsThere | src/mosaic-simulator-impl.cc:153-170 | after Schedule the list has gained exactly one event, at the delay, in the context of the caller; its id is not expired and has exactly this delay left |
| KernelCalls.ScheduledElsewhere | src/mosaic-simulator-impl.cc:172-184 | after ScheduleWithContext the list has gained exactly one event, in the given context |
| KernelCalls.ScheduledForNow | src/mosaic-simulator-impl.cc:186-198 | ScheduleNow puts its event behind all others of the instant and reports nothing |
| KernelCalls.DestroyEventIsThere | src/mosaic-simulator-impl.cc:200-207 | after ScheduleDestroy its id is not expired, and no other id changes |
| KernelCalls.StopIsScheduled | src/mosaic-simulator-impl.cc:149-151 | Stop(Time) is an event at the delay that stops the simulator |
| KernelCalls.StopIsFinal | src/mosaic-simulator-impl.cc:112-114 | once the simulator is stopped no event is executed in the rest of the run, whatever is granted |
| KernelCalls.SendErrorEndsTheProcess | src/mosaic-proxy-app.cc:108-142 | a failing SendTo ends the process and changes nothing else |
| KernelRuns.EventLeavesInTwoWays | src/mosaic-simulator-impl.cc:98-110 | an event leaves the list only as the head that is executed or by a Remove of its id |
| KernelRuns.HandlerOfHead | src/mosaic-simulator-impl.cc:98-110 | executing the head sets the clock, the context and the uid to those of the event and calls its handler, unless it is cancelled |
| KernelRuns.TimerFiresAtItsTime | src/mosaic-simulator-impl.cc:98-110 | an ns-3 event that left the list and is not cancelled has fired at its time and in its context |
| KernelRuns.CommandIsNotLost | src/mosaic-ns3-bridge.cc:168-331 | a deferred command stays queued until its handler has run, whatever ns-3 removes or cancels |
| KernelRuns.CommandsRunInStableOrder | src/mosaic-ns3-bridge.cc:132-331 | of two queued commands the one with the earlier time runs first, whichever arrived first, and with equal times the earlier arrival: a stable sort by time |
| KernelRuns.CommandRunsAtItsTime | src/mosaic-ns3-bridge.cc:132-331 | a deferred command leaves the list only as its head, in the step that calls its handler with Now equal to its time |
| KernelRuns.CommandIsQueuedForItsTime | src/mosaic-ns3-bridge.cc:132-331 | each call that the fields of a command ask for, for UPDATE_NODE one for each node, is queued for exactly the message time, zero becoming one for sends |
| KernelRuns.NothingElseIsQueued | src/mosaic-ns3-bridge.cc:132-331 | a deferred command queues nothing but what its fields ask for |
| KernelRuns.CommandReachesNs3 | src/mosaic-ns3-bridge.cc:132-331 | when a deferred command leaves the list, the effects of its call on the tables of that moment reach ns-3, stamped with the command's time |
| KernelRuns.CommandIsDoneAtOnce | src/mosaic-ns3-bridge.cc:138-164 | before the start nodes are made, and configured for cell, at once |
| KernelRuns.EndingCommands | src/mosaic-ns3-bridge.cc:123-348 | which commands end the process or close the connection, and that no other closes it |
| Replies.CommandIsCarriedOut | src/mosaic-ns3-bridge.cc:168-237 | each call that the fields of a command ask for has run once a grant that reaches its time is answered END and the simulator is not stopped |
| KernelRuns.LateCommandsTripTheAssertion | src/mosaic-ns3-bridge.cc:168-237 | the next positive grant after a command fails the clock assertion exactly if the command was for a time before Now, the grant reaches that time, and the simulator is not stopped |
| Witnesses.LateUpdateEndsTheProcess | src/mosaic-ns3-bridge.cc:168-237 | a run of five commands in which a position update for a time before Now makes the next grant fail the assertion |
| BridgeTheory.CacheRefinesHistory | src/mosaic-ns3-bridge.cc:350-374 | after every call the cache holds the 1000 largest distinct times ever submitted, also when the new time is the one erased; submitted times are exactly the reported ones |
| BridgeTheory.LargestIsUnique | src/mosaic-ns3-bridge.cc:359-362 | the 1000 largest members of a history are one set, so the cache is determined by the history |
| BridgeTheory.RepeatedOnlyBelowAFullCache | src/mosaic-ns3-bridge.cc:356-362 | a time is written again only if the cache holds 1000 times, all larger |
| BridgeTheory.RepeatedBelowAFullCache | src/mosaic-ns3-bridge.cc:356-362 | below a full cache a time is always written, and the cache stays as it was |
| BridgeTheory.FullCacheMinimumGrows | src/mosaic-ns3-bridge.cc:359-362 | the smallest time of a full cache never decreases |
| ReportRuns.RepeatsComeAfterManyLargerTimes | src/mosaic-ns3-bridge.cc:356-374 | over every run a time is reported again only after 1000 different larger times were reported |
| ReportRuns.RunKeepsAnnounced | src/mosaic-ns3-bridge.cc:350-374 | over every non-preemptive run the cache refines the history and the positive time of every event ever inserted was submitted |
| ReportRuns.EveryEventTimeIsReported | src/mosaic-simulator-impl.cc:153-198 | outside preemptive mode, at every moment, the positive time of every event ever inserted, whether queued, executed or removed and ScheduleNow included, is in a NEXT_EVENT report already written |
| ReportRuns.ScheduledTimeIsReported | src/mosaic-simulator-impl.cc:153-184 | the time of every event inserted by Schedule or ScheduleWithContext, time zero included, is in a NEXT_EVENT report from that call on |
| ReportRuns.PreemptiveModeAnnouncesNothing | src/mosaic-ns3-bridge.cc:350-353 | in preemptive mode no NEXT_EVENT is ever written |
| ReportRuns.StampsNeverDecrease | src/mosaic-ns3-bridge.cc:376-397 | times of RECV and of END or PREEMPTED never decrease over a run and never exceed Now; m_countNextEventRequest counts exactly the NEXT_EVENT and RECV reports |
| Wire.ParseRendered | src/mosaic-ns3-bridge.cc:371-373 | what the federate writes reads back as exactly the reports it meant |
| Wire.ParseIsUnique | src/mosaic-ns3-bridge.cc:230-235 | no other sequence of messages reads as those reports |
| Grants.GrantsCompose | src/mosaic-ns3-bridge.cc:195-237 | without pre-emption any list of positive grants leaves the same queue, clock, uids, counts, node manager, ns-3 history, cache and NEXT_EVENT and RECV reports as the largest alone, also if the process ends on the way |
| Grants.RegrantingIsUninterrupted | src/mosaic-ns3-bridge.cc:217-235 | in preemptive mode granting t again after each PREEMPTED until END, or until the process ends, executes the same events and sends the same RECV reports as the uninterrupted simulation up to t |
| Grants.GrantExecutes | src/mosaic-ns3-bridge.cc:215-235 | a grant executes an initial part of the uninterrupted simulation up to t, all of it if the reply is END |
| Grants.FinishedIsUnique | src/mosaic-ns3-bridge.cc:220-226 | the simulation up to t ends in one state, however many rounds are allowed |
| Replies.OneReplyPerGrant | src/mosaic-ns3-bridge.cc:195-237 | each completed ADVANCE_TIME writes exactly one END or PREEMPTED, last, stamped Now; PREEMPTED only in preemptive mode |
| Replies.EndMeansDone | src/mosaic-ns3-bridge.cc:219-235 | END means that the simulator is stopped or no queued event lies within the grant |
| Replies.PreemptedMeaning | src/mosaic-ns3-bridge.cc:217-235 | PREEMPTED means Now lies before the grant, the last event executed by this grant wrote a RECV stamped Now, and none was executed after the first such RECV of this grant |
| Replies.FlagIsExact | src/mosaic-ns3-bridge.cc:364-367 | in every round of a grant m_didRequestEventInThePast is set exactly if something before the grant was reported since it began |
| Replies.ZeroGrantExecutesNothing | src/mosaic-ns3-bridge.cc:200-208 | a grant of time zero executes nothing, starts nothing, announces time 1 and answers END |
| Replies.NowStaysWithinGrants | src/mosaic-ns3-bridge.cc:219-226 | after every run Now does not exceed the largest grant received |
| Replies.NowIsWithinGrants | src/mosaic-ns3-bridge.cc:219-226 | nor does it at any moment within a run |
| Replies.OneAckPerCommand | src/mosaic-ns3-bridge.cc:165-331 | a command carried out or deferred is acknowledged by exactly one SUCCESS; m_countTimeAdvanceGrant counts the positive grants |
| Termination.RoundIsLighter | src/mosaic-ns3-bridge.cc:220-226 | if handlers add boundedly many events, each later or of smaller rank, the weight of the queue strictly decreases with every executed event |
| Termination.GrantLoopEnds | src/mosaic-ns3-bridge.cc:220-226 | with such handlers the loop of every positive grant ends and the grant is answered |
| Termination.RegrantingReachesEnd | src/mosaic-ns3-bridge.cc:217-235 | with such handlers granting t again after each PREEMPTED reaches END, or the end of the process, after finitely many grants, and has then executed the uninterrupted simulation up to t |
| ManagerTheory.ApplyKeeps | src/mosaic-node-manager.cc:316-676 | every manager call keeps the invariant: inverse id maps, radio/wired partition, applications, used spare nodes a prefix of the pool |
| ManagerTheory.FirstFreeIsNext | src/mosaic-node-manager.cc:423-436 | activation takes the spare node right behind the used prefix, whose length is the number of activations |
| ManagerTheory.ExitConditions | src/mosaic-node-manager.cc:286-299 | which exits and failed assertions a call can reach, and for each exactly when; Invalid State and missing apps are unreachable |
| ManagerEffects.PositionUpdateMoves | src/mosaic-node-manager.cc:446-457 | a position update moves exactly the radio node it names, unless that is deactivated, and changes nothing else |
| ManagerEffects.NothingToDo | src/mosaic-node-manager.cc:446-676 | a call for a deactivated node and a second configuration for a medium have no effect |
| ManagerEffects.WifiConfigurationTakesEffect | src/mosaic-node-manager.cc:492-548 | the first Wi-Fi configuration sets the power, adds the address to the Wi-Fi device and opens application 0 |
| ManagerEffects.CellConfigurationTakesEffect | src/mosaic-node-manager.cc:550-633 | the first cell configuration adds the address to the right device, attaches the radio node or sets the default route of the wired one, and opens the right application |
| ManagerEffects.RemovalSwitchesOff | src/mosaic-node-manager.cc:459-490 | removal switches the Wi-Fi device of a radio node off and deactivates the node |
| ManagerEffects.CreationPlacesTheNode | src/mosaic-node-manager.cc:330-444 | a new radio node is made and placed, an activated spare one is placed, a wired one is made |
| ManagerEffects.NodeBIsEntered | src/mosaic-node-manager.cc:316-328 | a new eNB is made, placed and entered as the last of the eNBs |
| ManagerEffects.CallKeepsLists | src/mosaic-node-manager.cc:316-444 | every call keeps: m_enbNodes lists the eNBs and m_radioNodes the radio nodes with an id, each once |
| Ledger.NothingIsDoneTwice | src/mosaic-node-manager.cc:316-676 | at every moment ns-3 was told exactly once of each node made and of each configuration in the tables, and of nothing else; m_sendCount is the number of packets handed over, in 16 bits |
| Ledger.EveryReceptionIsReportedOnce | src/mosaic-proxy-app.cc:148-182 | at every moment m_recvCount of a live node's application is the number of RECV reports of its medium for the node's id |
| ManagerTheory.ReceptionNeverAborts | src/mosaic-node-manager.cc:301-314 | a packet never reaches the exit of GetMosaicNodeId; a forwarded one carries the id that maps back to the receiving node |
| ManagerTheory.DeactivatedIsUntouched | src/mosaic-node-manager.cc:446-490 | no call moves, configures or transmits from a deactivated node, and it stays deactivated |
| ManagerTheory.RemovalDisablesAllAppsIff | src/mosaic-node-manager.cc:478-487 | RemoveNode switches off all applications exactly if the node has no cell application or that was off already |
| ManagerTheory.RemovalSilencesTheNode | src/mosaic-node-manager.cc:459-490 | after RemoveNode no application of the node forwards a packet |
| Witnesses.RemovalLeavesTheCellAppOn | src/mosaic-node-manager.cc:478-487 | a run of four commands that leaves the cell application of a deactivated radio node active |
| Witnesses.MovingAWiredNodeEndsTheProcess | src/mosaic-node-manager.cc:446-457 | a run of three commands in which a position update for a wired node ends the process |
| ManagerTheory.MakeSparesKeeps | src/mosaic-node-manager.cc:154-157 | OnStart adds exactly the requested number of spare nodes and touches no id, eNB or activation |
| ManagerRuns.RunKeepsManager | src/mosaic-node-manager.cc:330-444 | after every run the manager's invariant holds and no reception ended the process |
| ManagerRuns.WalkKeepsManager | src/mosaic-node-manager.cc:330-444 | the same at every moment of a run |
| ManagerRuns.RemovalIsPermanent | src/mosaic-node-manager.cc:446-695 | from the moment a node is deactivated, the rest of that grant included, nothing moves, configures or transmits from it and no RECV names its id |
| ManagerRuns.RemovalDeactivates | src/mosaic-node-manager.cc:459-490 | the step that executes RemoveNode deactivates the node |
| Gates.CellMessageIsSentIff | src/mosaic-node-manager.cc:656-676 | at every moment of a run a cell message leaves exactly if the node is configured for cell and not removed, through application 1 of a radio node or 0 of a wired one |
| Gates.WifiMessageIsSentIff | src/mosaic-node-manager.cc:635-654 | at every moment of a run a Wi-Fi message leaves exactly if the radio node is configured for Wi-Fi and not removed |
| Gates.PacketIsReportedIff | src/mosaic-proxy-app.cc:148-182 | at every moment of a run a packet at an application is reported exactly if the node is configured for that medium and not removed, under the node's own id |
| Gates.ReceptionIsWrittenIff | src/mosaic-ns3-bridge.cc:376-397 | at every moment the RECV_WIFI_MSG or RECV_CELL_MSG, stamped Now, with the node's id and the message number, is written exactly if the node is configured for that medium and not removed; otherwise nothing is |
| Gates.StrangersAreDeaf | src/mosaic-proxy-app.cc:148-182 | a packet at a node without an id, a spare one for instance, changes nothing |
| Discipline.OrderlyStreamsNeverAbort | src/mosaic-node-manager.cc:417-444 | ids added once, later commands not before their ADD's time, at most numExtra late radio nodes: no run exits for an unknown id, a duplicate id or an exhausted pool |
| Discipline.PoolSuffices | src/mosaic-node-manager.cc:423-441 | in an orderly run a late radio node that is not active yet finds a spare node |
| NoExit.FittingCallSucceeds | src/mosaic-node-manager.cc:316-676 | a call whose node has the right kind, whose address is accepted and whose ids are known has no exit, and a node's kind stays what its ADD said |
| NoExit.ProperStreamsNeverExit | src/mosaic-ns3-bridge.cc:123-348 | orderly streams whose commands also suit the kind of node reach no exit and no failed assertion at all, deferred commands included, except when ns-3 itself fails to send |
| StartUp.NothingRunsBeforeOnStart | src/mosaic-ns3-bridge.cc:210-213 | over every run no event is executed before OnStart |
| StartUp.FirstGrantLaunches | src/mosaic-node-manager.cc:141-157 | after any run the first positive grant links exactly the eNBs made so far, each once, makes numExtra new spare nodes and tells ns-3 of each, before any event is executed |
| StartUp.WalkKeepsListed | src/mosaic-node-manager.cc:316-328 | at every moment m_enbNodes lists exactly the eNBs made so far |
| StartUp.OnStartIsOnceAndFinal | src/mosaic-ns3-bridge.cc:138-158 | from the moment the start is done, the loop of the first grant included, no X2 link, eNB, UE or spare node is added: OnStart never runs again |
| FromTheStart.InitialState | src/mosaic-simulator-impl.cc:45-58 | the state after construction and handshake satisfies the invariants the results start from |
| FromTheStart.EveryRun | src/mosaic-ns3-bridge.cc:105-121 | all invariants hold together after every timely run from the start, and no kernel assertion or reception ended the process |
| FromTheStart.EveryMoment | src/mosaic-ns3-bridge.cc:105-121 | the same at every moment of every timely run from the start |
| FromTheStart.FromMomentToMoment | src/mosaic-ns3-bridge.cc:105-121 | between any two moments of such a run: cancelled handlers do not run, deactivated nodes stay silent, a finished start is final |
| FromTheStart.EveryOrderlyRun | src/mosaic-ns3-bridge.cc:105-121 | every orderly run from the start is free of the id and pool exits |
| FromTheStart.EveryProperRun | src/mosaic-ns3-bridge.cc:105-121 | every orderly run from the start whose commands suit their nodes ends the process only through a failing SendTo of ns-3 |
| Channel.PrefixRoundTrip | src/client-server-channel.cc:611-635 | the canonical prefix of a length is read back exactly if the length is below 2^28, and rejected otherwise |
| Channel.PrefixIsBounded | src/client-server-channel.cc:624-634 | on any stream the reader takes at most 5 bytes, and on success returns a value below 2^28 |
| Channel.FramesRoundTrip | src/client-server-channel.cc:503-518 | reading recovers a list of messages and leaves the rest of the stream exactly if all are shorter than 2^28 bytes |
| Channel.TruncatedMessageFails | src/client-server-channel.cc:278-301 | a message whose body is cut off is not delivered |
| Channel.ClientServerChannel.ReadVarintPrefix | src/client-server-channel.cc:611-635 | the byte loop returns and consumes what the specification of the prefix says; after the end of the stream a byte counts as zero, and on an empty stream the uninitialised byte counts as the first |
| Channel.ClientServerChannel.ReadMessage | src/client-server-channel.cc:278-301 | prefix, then as many bytes as it says, or failure |
| Channel.ClientServerChannel.WriteMessage | src/client-server-channel.cc:568-583 | appends the length prefix and the body |
| Routing.PgwReachesTheNode | src/mosaic-node-manager.cc:104-108 | for every address ConfigureCellRadio accepts, longest prefix match in the PGW gives interface 3 for wired and 1 for radio nodes |
| Routing.WiredSenderRoutes | src/mosaic-node-manager.cc:617-625 | a configured wired sender delivers within 10.0.0.0/8 directly exactly inside its own /16, and through the PGW, which it reaches directly, otherwise |
| Routing.LookupIsLongest | src/mosaic-node-manager.cc:104-108 | the lookup finds a matching route of greatest prefix length if there is one (section 5.2.4.3 of RFC 1812) |
| ProxyApp.MosaicProxyApp.SetSockets | src/mosaic-proxy-app.cc:88-106 | sets the device once; a second call changes nothing and reports the fatal error |
| ProxyApp.MosaicProxyApp.TransmitPacket | src/mosaic-proxy-app.cc:108-142 | hands the packet over exactly if the app is active, counting in 16 bits |
| ProxyApp.MosaicProxyApp.Receive | src/mosaic-proxy-app.cc:148-182 | calls back exactly if the app is active; an inactive one counts nothing |
| ProxyApp.MosaicProxyApp.Enable | src/mosaic-proxy-app.cc:62-65 | opens the gate and nothing else |
| ProxyApp.MosaicProxyApp.Disable | src/mosaic-proxy-app.cc:67-69 | closes the gate and nothing else |
| NodeManager.MosaicNodeManager.CreateNodeB | src/mosaic-node-manager.cc:316-328 | the method on the object does what Manager.CreateNodeB says |
| NodeManager.MosaicNodeManager.CreateWiredNode | src/mosaic-node-manager.cc:330-360 | the same for wired nodes: new node, both maps, one inactive application, or the duplicate exit |
| NodeManager.MosaicNodeManager.CreateRadioNodeHelper | src/mosaic-node-manager.cc:362-398 | a new radio node with two inactive applications, in no id map |
| NodeManager.MosaicNodeManager.CreateRadioNode | src/mosaic-node-manager.cc:400-415 | the same for radio nodes before the start |
| NodeManager.MosaicNodeManager.OnStart | src/mosaic-node-manager.cc:141-157 | the loop makes numExtraRadioNodes spare nodes after linking the eNBs |
| NodeManager.MosaicNodeManager.UseFirstSpare | src/mosaic-node-manager.cc:423-436 | the loop enters the first spare node without an id in the tables, or none |
| NodeManager.MosaicNodeManager.ActivateRadioNode | src/mosaic-node-manager.cc:417-444 | duplicate exit, exhausted pool, or the activation of that node |
| NodeManager.MosaicNodeManager.UpdateNodePosition | src/mosaic-node-manager.cc:446-457 | moves the node unless it is unknown, deactivated or without a mobility model |
| NodeManager.MosaicNodeManager.RemoveNode | src/mosaic-node-manager.cc:459-490 | Wi-Fi off for radio nodes, application 0 off, deactivated for good |
| NodeManager.MosaicNodeManager.ConfigureWifiRadio | src/mosaic-node-manager.cc:492-548 | configures once, enables application 0, sets power and address |
| NodeManager.MosaicNodeManager.ConfigureCellRadio | src/mosaic-node-manager.cc:550-633 | configures once, checks the address, enables the right application, attaches or routes |
| NodeManager.MosaicNodeManager.SendWifiMsg | src/mosaic-node-manager.cc:635-654 | transmits through application 0 of an active radio node, with all exits |
| NodeManager.MosaicNodeManager.SendCellMsg | src/mosaic-node-manager.cc:656-676 | transmits through application 1 of a radio or 0 of a wired node |
| NodeManager.MosaicNodeManager.PacketArrives | src/mosaic-node-manager.cc:678-695 | forwards under the node's id, ignores, or ends the process, as Manager.Receive says |
| Federate.MosaicSimulatorImpl.Schedule | src/mosaic-simulator-impl.cc:153-170 | inserts with a fresh uid, reports the time to the bridge, returns the id |
| Federate.MosaicSimulatorImpl.ScheduleWithContext | src/mosaic-simulator-impl.cc:172-184 | the same with a given context and no id |
| Federate.MosaicSimulatorImpl.ScheduleNow | src/mosaic-simulator-impl.cc:186-198 | inserts at Now without a report |
| Federate.MosaicSimulatorImpl.ScheduleDestroy | src/mosaic-simulator-impl.cc:200-207 | appends a destroy event and consumes a uid |
| Federate.MosaicSimulatorImpl.IsExpired | src/mosaic-simulator-impl.cc:262-285 | the loop over the destroy events and the test on key and flag decide Kernel.IsExpired |
| Federate.MosaicSimulatorImpl.GetDelayLeft | src/mosaic-simulator-impl.cc:219-226 | zero for expired ids, else the distance from Now |
| Federate.MosaicSimulatorImpl.Cancel | src/mosaic-simulator-impl.cc:256-260 | sets the flag of an event that is not expired |
| Federate.MosaicSimulatorImpl.Remove | src/mosaic-simulator-impl.cc:228-254 | erases a destroy event, or removes, cancels and releases a pending one |
| Federate.MosaicSimulatorImpl.Destroy | src/mosaic-simulator-impl.cc:69-78 | the loop invokes, in order, the destroy events that are not cancelled |
| Federate.MosaicSimulatorImpl.DoDispose | src/mosaic-simulator-impl.cc:60-67 | the loop releases every queued event |
| Federate.MosaicSimulatorImpl.SetScheduler | src/mosaic-simulator-impl.cc:80-90 | moving the events to another scheduler keeps the whole state |
| Federate.MosaicSimulatorImpl.ProcessOneEvent | src/mosaic-simulator-impl.cc:98-110 | takes the head, sets the clock, invokes the handler unless cancelled, including the reaction of ns-3 |
| Federate.MosaicNs3Bridge.WriteNextTime | src/mosaic-ns3-bridge.cc:350-374 | inserts, trims to 1000 in a loop, flags, counts and writes, or skips |
| Federate.MosaicNs3Bridge.WriteReceiveWifiMessage | src/mosaic-ns3-bridge.cc:376-386 | flags a reception before the grant, counts and writes it |
| Federate.MosaicNs3Bridge.WriteReceiveCellMessage | src/mosaic-ns3-bridge.cc:388-397 | the same for cell |
| Federate.MosaicNs3Bridge.RunGrant | src/mosaic-ns3-bridge.cc:219-226 | the loop of ADVANCE_TIME, with its break, computes Drain |
| Federate.MosaicNs3Bridge.AdvanceTo | src/mosaic-ns3-bridge.cc:195-237 | the whole ADVANCE_TIME case |
| Federate.MosaicNs3Bridge.DispatchCommand | src/mosaic-ns3-bridge.cc:123-348 | every command does to the federate what Dispatch says |
| Federate.MosaicNs3Bridge.Run | src/mosaic-ns3-bridge.cc:105-121 | the command loop computes Federation.Run, and the channel then parses as exactly the reports of that run |

## Left out

- ns-3 itself: LTE attach, Wi-Fi PHY, CSMA, ARP, mobility and socket buffers are inside the arbitrary function `Network`; an inactive app leaves the packet in the socket buffer and nothing is said about that buffer.
- ns-3 reacts once to a manager call, after the manager's tables are updated and with all effects of that call in view; a reaction in the middle of a manager method is not modelled.
- The cancel flags of EventImpl objects are one set in the kernel, and an EventImpl is named by the uid its scheduling call consumed; an EventImpl scheduled twice is not modelled.
- `m_uid` reaching 2^32, times beyond int64, negative command times and negative grants, and time resolutions other than nanoseconds: numbers are unbounded naturals.
- Federate.MosaicSimulatorImpl.ScheduleWithContext: ends the process for a negative absolute time, where the source has no assertion and the unsigned time wraps around.
- Federate.MosaicNs3Bridge.RunGrant: requires that the loop ends, because the source has no bound; Termination.GrantLoopEnds proves it for bounded ns-3, and a loop that never ends is the status Diverged in Federation.
- Federate.MosaicNs3Bridge.DispatchCommand: requires the same of positive grants.
- Federate.MosaicNs3Bridge.AdvanceTo: requires the same of a positive grant.
- Federate.MosaicNs3Bridge.Run: requires the same of each positive grant of the stream.
- ProxyApp.MosaicProxyApp.TransmitPacket: the exit on a failing SendTo is the action SendError of ns-3 in Federation, not part of this contract.
- Federate.MosaicSimulatorImpl.Destroy: counts the handlers of destroy events as called; what they do is not modelled.
- Release builds, in which `NS_ASSERT` disappears (premake5.lua:104).
- `MosaicSimulatorImpl::Run`, `Stop(Time)` apart from scheduling a stop, and `SetCurrentTs`, which the federate never calls.
- Sockets, polling, retries, end of file inside a body, and the protobuf encoding of bodies; commands arrive as values, and exceptions while reading them do not occur.
- The handshake in the bridge's constructor, and events ns-3 schedules before it; runs start from an empty list.
- `m_trace`, logging, printing, XML configuration, transmit power in dBm, and `RejectAnyUeConnectionRequest`, whose only call is commented out.
- The callback pointer of a proxy app: the device decides between RecvWifiMsg and RecvCellMsg, and Receive returns whether it calls back.
- Routes of the PGW and of wired nodes outside 5.0.0.0/8 and 10.0.0.0/8.
