# LibNbiot in Dafny

LibNbiot is a non-blocking MQTT-SN client for narrow-band modems. This project models five of its parts and
proves what they keep over every run. All of it verifies with `dafny verify dfyconfig.toml`.

**Connection state machine** (`Timers`, `ConnectionSpec`, `ConnectionMachine`, `ConnectionTable`,
`ConnectionInvariant`, `ConnectionRuns`, `ConnectionHistory`, `ConnectionTimeouts`, `ConnectionTheorems`,
`ConnectionSteps`, `ConnectionOutcome`, `ConnectionCalls`, `ConnectionApi`). The class `NbiotStm` walks transitions, choices and states, runs entry actions and drains two event queues, updating its
fields in place. Each method equals a function on configurations (`View()`); the walk over the graph equals a flat
table (`WalkIsTable`), and the theorems are about all configurations that client calls, posted events and dispatches
can reach from the start. Where the start and each call of a client lead is stated by states, answers and clock
readings, without the table. Modem answers and clock readings come from an arbitrary `World`. A waiting state is
armed exactly unless a mark of its timer came out as 0, so always with a clock above 0; no other theorem depends on it.

**Topics** (`TopicFilter`, `List`, `TopicRegistry`). The one-pass scan for wildcards is the match by levels. The
registry works in place on the singly linked list, which refines a sequence; lookups, insertion, handler attachment
and removal are characterised exactly, over every run.

**Packets** (`PacketFormat`, `PacketOctets`, `PacketCodec`, `PacketRoundTrip`). Serializers move a cursor over an array;
each writes exactly the octets of its message, or nothing, and the matching deserializer gives the fields back.

**Loop controller and sessions** (`LoopController`, `Retransmission`). Each handler notes its call, and the log of
these calls is a row of complete sessions in registration order; a publish or subscribe session is a fold over its
steps that keeps its budget of sends.

**Byte path** (`CircularBuffer`, `Network`, `Serial`). The ring is a bounded queue, the network read accounts for
every byte, and the line reader gives each line exactly one receiver.

`Common` holds the types they share.

## Findings

Where the code does less than one would expect, the model keeps the code and states exactly when it does meet the
expectation:

- `removeTopic` of a wildcard is exact if and only if no entry before it is matched: the index is not adjusted
  (`RemoveIsExactIffNothingBefore`, with a list on which the wildcard survives in `RemoveCanMissItsEntry`).
- `push` onto an empty list leaves `lastElement` behind; assigning a list to itself empties it (`List.Push`,
  `List.Assign`).
- A loop break that hits an active client drops it while it is pending; a start handler is skipped if and only if
  that client's turn before was broken off so (`SkippedIffBroken`, `NbiotLoop.Clear`).
- A timer started at clock reading 0 is not armed, and so no timeout leads out of a waiting state (`NoDeadEnd` with
  its exact condition, and a stopped clock on which it happens in `StoppedClockIsDeadEnd`).
- Disconnect, hibernate and connect of a client in ConnectedAwake send Wakeup first, which that state ignores; they take
  no effect until it sleeps again (`ConnectionOutcomes.AwakeIgnoresTwo`, `DisconnectLeads`).
- A failed publish is disconnected one dispatch later: the event it posts is not handled by the dispatch of its own cycle
  (`FinishLeads`).
- A network read whose loop never runs, with something but too little announced, takes the byte counter below zero
  (`Network.Read`).
- A bulk operation of zero bytes disturbs the full flag of the ring (`PutBulk`, `GetBulk`).
- A body of 255 bytes, and only that, makes a serializer report more than it compared with the buffer; a length above
  255 is read back only by coincidence (`ReportIsLength`, `HeaderReadsBack`).
- A normal topic id published with a quality of service that is 3 in two bits without being 3 is read as the length of
  a name (`PublishRoundTrip`).
- A resent packet takes its id from the loop value, which is the time that was left as soon as a step has run: all
  packets of a session carry its id if and only if each resend comes in the first step or after a step that left that
  many milliseconds (`SameIdIff`, with a run that does not in `ResendUnderAnotherId`). A PUBACK for another packet id
  ends a publish in success (`Session.FinishLoop`).
- The filter match is stricter than MQTT on empty and parent levels, and on nothing else (`StricterThanMqtt`).

## Model

| member | source | states |
|---|---|---|
| `ConnectionTheorems.WorkingMeansInitialized` | libNbiot/src/nbiotstm.cpp:785-860 | after every run of client calls, posted events and dispatches from the start, with any modem answers, `initialized` is true in the seven states outside Initial, Error and deep sleep |
| `ConnectionTheorems.NoDeadEnd` | libNbiot/src/nbiotstm.cpp:886-910 | after every run, whatever the clock, the state timer is armed in none but Initial, both waiting states, ConnectedAwake and the uninitialized Error state, and the initialized Error state has its own exit event queued; in a waiting state the timer is one that was started, and armed if and only if neither the clock reading it was started at nor that plus the period is 0, so always with a clock above 0 |
| `ConnectionTheorems.ReachedIsTimed` | libNbiot/src/nbiotstm.cpp:785-910 | after every run the timer of a waiting state is one that was started at an earlier clock reading for a period that is not negative |
| `ConnectionTheorems.StoppedClockIsDeadEnd` | libNbiotCore/src/nbiottimer.cpp:29-79 | with a clock that reads 0 and a modem that never answers the start ends in the uninitialized Error state with no timer armed and nothing queued |
| `ConnectionTheorems.OwnEventsMeetTheirState` | libNbiot/src/nbiotstm.cpp:132-144 | after every run an InitializeEvent is queued only while the state is Initial; no event was ever aborted, no InitializeEvent handled outside Initial, no ErrorDisconnectEvent in Error without initialization |
| `ConnectionTheorems.RebootAfterFiveTimeouts` | libNbiot/src/nbiotstm.cpp:889-900 | the restart counter equals the attach timeouts since the last successful attach or Error-state reboot and is at most 4 between calls; every Error-state reboot comes after exactly five |
| `ConnectionTheorems.OneStatePerHandledEvent` | external/src/StateMachine/state.cpp:51-71 | over every run the states entered are the first one and exactly one for each handled event |
| `ConnectionTheorems.ExitIsTaken` | external/src/StateMachine/eventdispatcher.cpp:45-81 | a dispatch that finds an armed timer expired, or the initialized Error state, handles an event and so leaves the state, whatever the clock does |
| `ConnectionTheorems.DrainLeaves` | external/src/StateMachine/eventdispatcher.cpp:59-81 | draining a queue that holds the exit event of the current state handles at least one event, whatever is queued before it |
| `ConnectionTheorems.RunKeepsBalance` | external/src/StateMachine/eventdispatcher.cpp:59-95 | no operation of a run changes the balance of state entries and handled events |
| `ConnectionInvariant.HistoryAt` | libNbiot/src/nbiotstm.cpp:889-900 | every recorded step was good after the steps before it |
| `ConnectionInvariant.FireAllKeeps` | libNbiot/src/nbiotstm.cpp:458-513 | a walk counts an attach timeout only on the path out of WaitForAttach and otherwise leaves the counter below five |
| `ConnectionInvariant.NextHasFacts` | libNbiot/src/nbiotstm.cpp:279-352 | which states can be entered from where and on which event, and which events a state never ignores |
| `ConnectionInvariant.InitialEntryDone` | libNbiot/src/nbiotstm.cpp:785-860 | the Initial entry posts InitializeEvent exactly when it re-initializes, and keeps history and counter |
| `ConnectionInvariant.ErrorEntryDone` | libNbiot/src/nbiotstm.cpp:886-910 | the Error entry leaves the timer unarmed when initialized, and then posts ReInitializeEvent after a reboot at five timeouts, or ErrorDisconnectEvent |
| `ConnectionInvariant.EnterDone` | external/src/StateMachine/state.cpp:51-66 | entering any state leaves the timer armed only if that state waits, posts what the state posts, and keeps history and counter |
| `ConnectionRuns.HandleFirstKeepsDraining` | external/src/StateMachine/eventdispatcher.cpp:60-76 | handling the front event keeps the invariant of a dispatch: queued self-sent events fit the state, and a timer event is last |
| `ConnectionRuns.DrainKeepsDraining` | external/src/StateMachine/eventdispatcher.cpp:59-81 | the whole queue is drained under that invariant |
| `ConnectionRuns.DispatchIsStable` | external/src/StateMachine/eventdispatcher.cpp:45-95 | every dispatch restores the invariant that holds between calls |
| `ConnectionRuns.ApplyIsStable` | libNbiot/src/nbiotmqtt.cpp:258-593 | every allowed operation keeps the invariant that holds between calls |
| `ConnectionRuns.RunIsStable` | libNbiot/src/nbiotmqtt.cpp:57-256 | every run of allowed operations keeps it |
| `ConnectionRuns.StartIsStable` | libNbiot/src/nbiotstm.cpp:132-144 | the start establishes it, whatever the modem answers |
| `ConnectionTimeouts.StartTimed` | libNbiot/src/nbiotstm.cpp:132-144 | after the start the timer of a waiting state is one that was started, whatever the clock |
| `ConnectionTimeouts.DispatchTimed` | external/src/StateMachine/eventdispatcher.cpp:45-95 | every dispatch keeps that |
| `ConnectionTimeouts.RunTimed` | libNbiot/src/nbiotmqtt.cpp:57-256 | every run of operations keeps it |
| `ConnectionTimeouts.StartedIsArmed` | libNbiotCore/src/nbiottimer.cpp:35-79 | a timer that was started is armed if and only if neither its start nor its end mark came out as 0 |
| `ConnectionHistory.DispatchIsFifo` | external/src/StateMachine/eventdispatcher.cpp:45-95 | on any acyclic graph a dispatch finishes the queued events, a timeout last, each once and in order, leaves the earlier pending events followed by those posted meanwhile, in order, and enters one state per handled event |
| `ConnectionHistory.DrainProgresses` | external/src/StateMachine/eventdispatcher.cpp:59-81 | draining finishes every queued event once in order and empties the queue |
| `ConnectionHistory.RouteQuiet` | external/src/StateMachine/transition.cpp:35-61 | a walk finishes no event, enters no state and only appends to the pending queue |
| `ConnectionHistory.EnterQuiet` | external/src/StateMachine/state.cpp:51-66 | entering a state counts one entry and only appends to the pending queue |
| `ConnectionTable.WalkIsTable` | external/src/StateMachine/state.cpp:90-111 | for every configuration and event, the walk over transitions, choices and states does exactly what one row of the flat table says: enter one state or ignore the event, never abort |
| `ConnectionTable.NbiotGraphAcyclic` | libNbiot/src/nbiotstm.cpp:146-352 | the wiring has no walk that comes back to a transition |
| `ConnectionTable.FirstMatchIsTable` | external/src/StateMachine/state.cpp:94-104 | the transition picked for an event is the first one of its table row |
| `ConnectionTable.RowIsWalked` | external/src/StateMachine/choice.cpp:34-65 | walking from the first transition of a row fires exactly that row's transitions with that many modem answers and ends at its state |
| `ConnectionMachine.NbiotStm.constructor` | libNbiot/src/nbiotstm.cpp:32-82 | a fresh machine: no state, nothing queued, nothing initialized |
| `ConnectionMachine.NbiotStm.TransitionAction` | libNbiot/src/nbiotstm.cpp:393-565 | error number and restart counter after each transition action |
| `ConnectionMachine.NbiotStm.Condition` | libNbiot/src/nbiotstm.cpp:748-783 | the three choice conditions, one or no modem answer each |
| `ConnectionMachine.NbiotStm.BringUp` | libNbiot/src/nbiotstm.cpp:785-845 | reboot, modem initialization and login lookup, each only after the one before succeeded |
| `ConnectionMachine.NbiotStm.ActionInitialEntry` | libNbiot/src/nbiotstm.cpp:785-860 | the whole Initial entry |
| `ConnectionMachine.NbiotStm.ActionErrorEntry` | libNbiot/src/nbiotstm.cpp:886-910 | the whole Error entry |
| `ConnectionMachine.NbiotStm.EntryAction` | libNbiot/src/nbiotstm.cpp:862-1060 | the entry action of every state |
| `ConnectionMachine.NbiotStm.Arrive` | external/src/StateMachine/state.cpp:56-63 | the current state is set and an armed timer disarmed before the entry action |
| `ConnectionMachine.NbiotStm.Enter` | external/src/StateMachine/state.cpp:51-71 | a state entry as a function of the configuration |
| `ConnectionMachine.NbiotStm.Trigger` | external/src/StateMachine/transition.cpp:35-61 | the recursive walk computes the specified route and outcome |
| `ConnectionMachine.NbiotStm.Execute` | external/src/StateMachine/choice.cpp:34-65 | a choice computes the specified branch |
| `ConnectionMachine.NbiotStm.HandleEvent` | external/src/StateMachine/state.cpp:90-111 | the first matching transition is triggered, otherwise the event is ignored |
| `ConnectionMachine.NbiotStm.CheckTimeout` | external/src/StateMachine/eventdispatcher.cpp:47-57 | an expired armed timer queues a timer event and is armed again with its own period |
| `ConnectionMachine.NbiotStm.TakeFront` | external/src/StateMachine/eventdispatcher.cpp:64-74 | the front event leaves the queue, marked pending, with the next positive id |
| `ConnectionMachine.NbiotStm.DrainEvents` | external/src/StateMachine/eventdispatcher.cpp:60-81 | the drain loop equals the recursive drain and terminates |
| `ConnectionMachine.NbiotStm.FlushPending` | external/src/StateMachine/eventdispatcher.cpp:83-94 | the pending events move behind the queued ones in order |
| `ConnectionMachine.NbiotStm.Dispatch` | external/src/StateMachine/eventdispatcher.cpp:45-95 | a dispatch as a function of the configuration |
| `ConnectionMachine.NbiotStm.SendEvent` | libNbiot/src/nbiotstm.cpp:1131-1137 | push and dispatch |
| `ConnectionMachine.NbiotStm.PostEvent` | libNbiot/src/nbiotstm.cpp:1139-1144 | append to the pending queue |
| `ConnectionMachine.NbiotStm.SetTimeout` | external/src/StateMachine/eventdispatcher.cpp:97-103 | start the state timer at the current clock |
| `ConnectionMachine.NbiotStm.StartStateMachine` | libNbiot/src/nbiotstm.cpp:132-144 | enter Initial, then send InitializeEvent |
| `ConnectionSteps.EnterArrives` | libNbiot/src/nbiotstm.cpp:862-1060 | what each state's entry leaves, in numbers: a minute's timer in the waiting states and the uninitialized Error state, a thousand milliseconds for each second of the sleep duration in ConnectedAwake, the fifth timeout a reboot is due after, no initialization in deep sleep |
| `ConnectionSteps.InitialAgain` | libNbiot/src/nbiotstm.cpp:785-860 | Initial entered again: the one answer to initialize decides, and InitializeEvent is posted |
| `ConnectionSteps.HeadMoves` | external/src/StateMachine/eventdispatcher.cpp:60-76 | the head of the queue moves the machine along its row, and its state's entry is carried out |
| `ConnectionSteps.ConnectingFires` | libNbiot/src/nbiotstm.cpp:458-513 | error number and timeout counter on the way from a connect event |
| `ConnectionSteps.AttachedFires` | libNbiot/src/nbiotstm.cpp:458-513 | and on the way from an attached event |
| `ConnectionSteps.InitializedFires` | libNbiot/src/nbiotstm.cpp:393-440 | and on the way out of Initial |
| `ConnectionSteps.SingleFires` | libNbiot/src/nbiotstm.cpp:393-565 | of the other transitions only the two timeouts touch them |
| `ConnectionSteps.LateStartsAgain` | external/src/StateMachine/eventdispatcher.cpp:47-57 | a late timer is started again for as long as it had run before |
| `ConnectionSteps.EventsAreNumbered` | external/src/StateMachine/eventdispatcher.cpp:64-74 | events are numbered from 1 on, and from 1 again behind the largest number |
| `ConnectionSteps.TakesOne` | external/src/StateMachine/eventdispatcher.cpp:45-95 | where a dispatch of one event leads, with the timer not late |
| `ConnectionSteps.TakesTimeout` | external/src/StateMachine/eventdispatcher.cpp:45-95 | where a dispatch that finds the timer late leads, behind no event or one that is ignored |
| `ConnectionSteps.WaitingTimesOut` | libNbiot/src/nbiotstm.cpp:393-565 | a timeout leads from WaitForAttach and WaitForConnect to Error with their error numbers, from ConnectedAwake to sleep, and from the uninitialized Error state to a new start |
| `ConnectionOutcomes.StartLeads` | libNbiot/src/nbiotstm.cpp:785-860 | for every modem and clock a start ends Disconnected and initialized if the modem is rebooted, initialized and, without a login, gives its number; otherwise uninitialized in Error, or, with the minute over by then, in Initial again with one more answer |
| `ConnectionOutcomes.InitialDispatches` | libNbiot/src/nbiotstm.cpp:785-860 | the event of the Initial state leads to Disconnected if initialized and to Error if not |
| `ConnectionOutcomes.FirstEntry` | libNbiot/src/nbiotstm.cpp:785-845 | the first bring-up: initialized exactly if each of its answers is yes, none asked for after one that is no |
| `ConnectionOutcomes.AwakeIgnoresTwo` | libNbiot/src/nbiotmqtt.cpp:501-551 | in ConnectedAwake neither Wakeup nor what follows it takes effect |
| `ConnectionOutcomes.ConnectMoves` | libNbiot/src/nbiotstm.cpp:458-513 | a connect event leads to WaitForAttach, WaitForConnect or Error by the modem's two answers |
| `ConnectionOutcomes.ReInitializeMoves` | libNbiot/src/nbiotmqtt.cpp:553-573 | out of deep sleep to Initial, initialized as the one answer says |
| `ConnectionOutcomes.DispatchHears` | external/src/StateMachine/eventdispatcher.cpp:45-95 | where the one event that a dispatch finds leads: attached, connected, disconnect, the ways out of Error, and initialize |
| `ConnectionOutcomes.DispatchIdles` | external/src/StateMachine/eventdispatcher.cpp:45-95 | a dispatch of nothing is a timeout or changes nothing |
| `ConnectionCalls.DisconnectLeads` | libNbiot/src/nbiotmqtt.cpp:501-511 | with nothing queued, disconnect ends in Disconnected from Connected, ConnectedSleep and DisconnectedSleep; from ConnectedAwake it does not |
| `ConnectionCalls.SleepLeads` | libNbiot/src/nbiotmqtt.cpp:513-521 | sleep ends in the sleep state of the two states it works in, with its duration |
| `ConnectionCalls.HibernateLeads` | libNbiot/src/nbiotmqtt.cpp:523-551 | hibernate ends in deep sleep, no longer initialized, from all states but ConnectedAwake that are connected or disconnected |
| `ConnectionCalls.ConnectLeads` | libNbiot/src/nbiotmqtt.cpp:258-284 | connect leads from each state where the modem's answers say |
| `ConnectionCalls.WakeupLeads` | libNbiot/src/nbiotmqtt.cpp:553-573 | wakeup ends Connected or Disconnected as before the sleep, or at a new start; and if it reconnects, where that leads |
| `ConnectionCalls.FinishLeads` | libNbiot/src/nbiotmqtt.cpp:101-234 | where the end of a cycle leads; a failed publish leaves the error number and a disconnect for the next dispatch |
| `ConnectionCalls.NoticeLeads` | libNbiot/src/nbiotmqtt.cpp:685-724 | where a notice leads |
| `ConnectionCalls.CycleLeads` | libNbiot/src/nbiotmqtt.cpp:57-256 | where a cycle without notices leads |
| `ConnectionApi.NbiotMqtt.ClientIsReached` | libNbiot/src/nbiotmqtt.cpp:31-45 | the object a client holds is always in a configuration the theorems are about, so its fields obey them |
| `ConnectionApi.NbiotMqtt.constructor` | libNbiot/src/nbiotmqtt.cpp:31-45 | a started client, within the invariant of all runs, and where its start has led |
| `ConnectionApi.NbiotMqtt.Connect` | libNbiot/src/nbiotmqtt.cpp:258-284 | which event connect sends in which state, where that leads with nothing queued, and the error number it returns |
| `ConnectionApi.NbiotMqtt.Disconnect` | libNbiot/src/nbiotmqtt.cpp:501-511 | wake first when sleeping, then disconnect, and where that leads; nothing in other states |
| `ConnectionApi.NbiotMqtt.Sleep` | libNbiot/src/nbiotmqtt.cpp:513-521 | duration and sleep event, only when connected or disconnected, and where that leads |
| `ConnectionApi.NbiotMqtt.Hibernate` | libNbiot/src/nbiotmqtt.cpp:523-551 | wake first when sleeping, and where that leads; reconnects later exactly if connected by then with a duration |
| `ConnectionApi.NbiotMqtt.Wakeup` | libNbiot/src/nbiotmqtt.cpp:553-573 | leave sleep, reconnect if asked for, clear the duration, and where that leads |
| `ConnectionApi.NbiotMqtt.Notify` | libNbiot/src/nbiotmqtt.cpp:685-724 | gateway disconnect, ping response and finished attachment as events, and where they lead |
| `ConnectionApi.NbiotMqtt.Dispatch` | external/src/StateMachine/eventdispatcher.cpp:45-95 | where the event that a dispatch of the client finds leads |
| `ConnectionApi.NbiotMqtt.FinishCycle` | libNbiot/src/nbiotmqtt.cpp:101-234 | what a finished or failed session posts, the dispatch unless the controller is busy, and where both lead |
| `ConnectionApi.NbiotMqtt.NotifyAll` | libNbiot/src/nbiotmqtt.cpp:685-724 | several notices are exactly their operations, each in the configuration the ones before it have left |
| `ConnectionApi.NbiotMqtt.EventLoop` | libNbiot/src/nbiotmqtt.cpp:57-256 | a whole cycle is exactly the wakeup if it is due, the operations of its notices, and those of its outcome; and where one without notices leads |
| `Timers.TimerMarks.Remaining` | libNbiotCore/src/nbiottimer.cpp:62-68 | nothing remains once the end mark is reached or while it is unset; before, the distance to it, cut to 32 bits |
| `Timers.RestartKeepsArmed` | libNbiotCore/src/nbiottimer.cpp:35-60 | an expired timer re-armed with its own elapsed time stays armed with the same period |
| `TopicFilters.IsTopicMatched` | libNbiot/src/nbiottopic.h:361-386 | the cursor loop computes the scan |
| `TopicFilters.ScanIsLevelMatch` | libNbiot/src/nbiottopic.h:361-386 | on filters whose wildcards fill whole levels with `#` last, the character scan is true exactly if the levels match |
| `TopicFilters.StricterThanMqtt` | libNbiot/src/nbiottopic.h:361-386 | the match is the rule of sections 4.7.1.2 and 4.7.1.3 of MQTT 3.1.1 and, exactly, that no wildcard takes an empty level or none |
| `TopicFilters.RefusesParentAndEmptyLevel` | libNbiot/src/nbiottopic.h:361-386 | a concrete parent level and a concrete empty level the rule matches and the code does not |
| `TopicFilters.WildcardIffMatchesOther` | libNbiot/src/nbiottopic.h:310-313 | a well-formed filter is a wildcard exactly if it matches something else than itself |
| `TopicFilters.PlainMatchesItself` | libNbiot/src/nbiottopic.h:361-386 | a filter without wildcard characters matches itself and nothing else |
| `TopicFilters.CStringIsPrefix` | libNbiotCore/src/nbiotstring.cpp:117-135 | a name compares as its longest prefix without a zero byte |
| `TopicSpec.Topic.Assigned` | libNbiot/src/nbiottopic.h:174-187 | assignment takes every field and keeps a handler that is there |
| `TopicSpec.RunStaysNamed` | libNbiot/src/nbiottopicregistry.cpp:69-249 | over every run of registry operations names stay non-empty and pairwise different |
| `TopicSpec.ApplyStaysNamed` | libNbiot/src/nbiottopicregistry.cpp:69-249 | every single operation keeps that |
| `TopicSpec.FindIsUnique` | libNbiot/src/nbiottopicregistry.cpp:176-184 | a lookup by name returns the unique position with that name |
| `TopicSpec.FlagsAreIndependent` | libNbiot/src/nbiottopic.h:257-313 | setting or clearing one registration flag leaves the other as it was |
| `TopicSpec.FoundOrNot` | libNbiot/src/nbiottopicregistry.cpp:176-184 | a name is found at the one entry that has it, and not found exactly if none has |
| `TopicSpec.InsertIsMapUpdate` | libNbiot/src/nbiottopicregistry.cpp:69-96 | insertion is an order-keeping map update by name in which an existing handler survives |
| `TopicSpec.AttachChangesMatched` | libNbiot/src/nbiottopicregistry.cpp:140-164 | after attaching, exactly the entry and, for a wildcard, the matched entries that are no wildcards carry the handler; nothing else changes |
| `TopicSpec.UpdateChangesMatched` | libNbiot/src/nbiottopicregistry.cpp:116-138 | after a wildcard update exactly the matched entries that are no wildcards carry its handler; nothing else changes |
| `TopicSpec.RemoveIsExactIffNothingBefore` | libNbiot/src/nbiottopicregistry.cpp:227-244 | removing a wildcard leaves exactly the unmatched entries in order if and only if no entry before it is matched |
| `TopicSpec.RemoveIsMapRemoval` | libNbiot/src/nbiottopicregistry.cpp:227-244 | removing a topic that is no wildcard takes its name out of the list and leaves every other entry as and where it was |
| `TopicSpec.RemoveTakesMatched` | libNbiot/src/nbiottopicregistry.cpp:227-244 | where removal of a wildcard is exact it takes out the wildcard and what it matches, and nothing else |
| `TopicSpec.RemoveNowhere` | libNbiot/src/nbiottopicregistry.cpp:227-244 | an index the list does not have removes nothing |
| `TopicSpec.FlagsChangeOneEntry` | libNbiot/src/nbiottopicregistry.cpp:186-200 | setting or clearing a flag changes the registrations of the entry at the index and nothing else |
| `TopicSpec.RemoveCanMissItsEntry` | libNbiot/src/nbiottopicregistry.cpp:227-244 | a list on which the wildcard itself survives its removal |
| `TopicSpec.SweepDownLeaves` | libNbiot/src/nbiottopicregistry.cpp:232-242 | what the downward loop has left at any point, in closed form |
| `TopicRegistries.NbiotTopicRegistry.InsertTopic` | libNbiot/src/nbiottopicregistry.cpp:69-96 | skip empty names, append new ones, assign in place otherwise |
| `TopicRegistries.NbiotTopicRegistry.AttachWildcardMessageHandler` | libNbiot/src/nbiottopicregistry.cpp:98-114 | the handler of the first matching wildcard, if there is one |
| `TopicRegistries.NbiotTopicRegistry.Redirect` | libNbiot/src/nbiottopicregistry.cpp:122-134 | the in-place loop over the list redirects exactly the followers and reports whether there was one |
| `TopicRegistries.NbiotTopicRegistry.UpdateWildcardMessageHandler` | libNbiot/src/nbiottopicregistry.cpp:116-138 | redirect by the registered entry of that name |
| `TopicRegistries.NbiotTopicRegistry.AttachMessageHandler` | libNbiot/src/nbiottopicregistry.cpp:140-164 | set the handler at an index and redirect the followers; an invalid index changes nothing |
| `TopicRegistries.NbiotTopicRegistry.FindTopic` | libNbiot/src/nbiottopicregistry.cpp:176-184 | position by name, -1 for the empty one |
| `TopicRegistries.NbiotTopicRegistry.SetTopicFlag` | libNbiot/src/nbiottopicregistry.cpp:186-192 | set registration flags at a valid index |
| `TopicRegistries.NbiotTopicRegistry.UnsetTopicFlag` | libNbiot/src/nbiottopicregistry.cpp:194-200 | clear registration flags at a valid index |
| `TopicRegistries.NbiotTopicRegistry.Sweep` | libNbiot/src/nbiottopicregistry.cpp:230-242 | the downward loop with removal in place |
| `TopicRegistries.NbiotTopicRegistry.HasTopic` | libNbiot/src/nbiottopicregistry.cpp:216-225 | true exactly if an entry of that name is registered with the flag |
| `TopicRegistries.NbiotTopicRegistry.RemoveTopic` | libNbiot/src/nbiottopicregistry.cpp:227-244 | the loop, then removal of what is at the index by then |
| `Lists.List.Copy` | external/src/List/list.h:41-44 | a copy with the same items and nodes of its own |
| `Lists.List.Assign` | external/src/List/list.h:51-60 | the items of the other list on fresh nodes; assigned to itself, empty |
| `Lists.List.AppendCopy` | external/src/List/list.h:264-292 | copies node by node and leaves the source as it is |
| `Lists.List.Append` | external/src/List/list.h:63-77 | one item more at the end of an acyclic chain |
| `Lists.List.At` | external/src/List/list.h:79-90 | the item at an index, or the invalid item |
| `Lists.List.Set` | external/src/List/list.h:92-103 | assignment at an index, or to the invalid item |
| `Lists.List.Remove` | external/src/List/list.h:105-134 | the sequence without one item; chain, size and last node stay right; an invalid index changes nothing |
| `Lists.List.Relinked` | external/src/List/list.h:110-132 | linking the predecessor to the successor leaves a chain of distinct nodes |
| `Lists.List.TakeFront` | external/src/List/list.h:136-154 | the first item and the rest, or the invalid item |
| `Lists.List.Pop` | external/src/List/list.h:156-171 | the rest |
| `Lists.List.Push` | external/src/List/list.h:173-184 | one item more in front; the list stays well formed if and only if it was not empty |
| `Lists.List.IndexOf` | external/src/List/list.h:206-226 | the first match, or -1 |
| `Lists.List.Clear` | external/src/List/list.h:228-237 | the empty list |
| `Lists.List.Element` | external/src/List/list.h:252-261 | the node at an index, by walking the links |
| `PacketFormat.PublishRoundTrip` | external/src/paho.mqtt-sn.embedded-c/MQTTSNPacket/MQTTSNDeserializePublish.c:36-102 | a PUBLISH is read back field by field, except exactly when a normal topic id goes with a quality of service that is 3 in two bits |
| `PacketFormat.AckRoundTrip` | external/src/paho.mqtt-sn.embedded-c/MQTTSNPacket/MQTTSNDeserializePublish.c:105-130 | PUBACK and REGACK are read back |
| `PacketFormat.RegisterRoundTrip` | external/src/paho.mqtt-sn.embedded-c/MQTTSNPacket/MQTTSNDeserializePublish.c:176-204 | REGISTER is read back |
| `PacketFormat.SubscribeRoundTrip` | external/src/paho.mqtt-sn.embedded-c/MQTTSNPacket/MQTTSNSubscribeServer.c:32-90 | SUBSCRIBE is read back |
| `PacketFormat.SubackRoundTrip` | external/src/paho.mqtt-sn.embedded-c/MQTTSNPacket/MQTTSNSubscribeClient.c:108-137 | SUBACK is read back |
| `PacketFormat.UnsubscribeRoundTrip` | external/src/paho.mqtt-sn.embedded-c/MQTTSNPacket/MQTTSNUnsubscribeServer.c:20-74 | UNSUBSCRIBE is read back |
| `PacketFormat.ConnectRoundTrip` | external/src/paho.mqtt-sn.embedded-c/MQTTSNPacket/MQTTSNConnectServer.c:31-65 | CONNECT is read back |
| `PacketFormat.DisconnectRoundTrip` | external/src/paho.mqtt-sn.embedded-c/MQTTSNPacket/MQTTSNConnectServer.c:105-130 | DISCONNECT is read back with its duration modulo 65536, or without one |
| `PacketFormat.FlagsReadBack` | external/src/paho.mqtt-sn.embedded-c/MQTTSNPacket/MQTTSNPacket.h:83-108 | the bit fields of the flags byte do not disturb each other |
| `PacketFormat.HeaderReadsBack` | external/src/paho.mqtt-sn.embedded-c/MQTTSNPacket/MQTTSNPacket.c:61-111 | a written length field is read back for all lengths up to 255, and beyond exactly if the bytes happen to spell the length |
| `PacketFormat.ReportIsLength` | external/src/paho.mqtt-sn.embedded-c/MQTTSNPacket/MQTTSNPacket.c:49-77 | the reported length is the length octet up to 254 bytes of body, and equals the length compared with the buffer for every body but one of 255 bytes |
| `PacketFormat.SerializedIsFramed` | external/src/paho.mqtt-sn.embedded-c/MQTTSNPacket/MQTTSNPacket.c:49-77 | what any serializer puts into a buffer of at most 255 bytes is a packet a reader can open |
| `PacketFormat.OpensPacket` | external/src/paho.mqtt-sn.embedded-c/MQTTSNPacket/MQTTSNDeserializePublish.c:46-53 | the common prologue finds type, cursor and end of a packet |
| `PacketCodec.Writer.Encode` | external/src/paho.mqtt-sn.embedded-c/MQTTSNPacket/MQTTSNPacket.c:61-77 | the length field, with the marker overwritten in the long form |
| `PacketCodec.Writer.WriteInt` | external/src/paho.mqtt-sn.embedded-c/MQTTSNPacket/MQTTSNPacket.c:158-164 | two bytes, high first |
| `PacketCodec.Writer.CopyBytes` | external/src/paho.mqtt-sn.embedded-c/MQTTSNPacket/MQTTSNPacket.c:187-196 | a run of bytes, and nothing behind it |
| `PacketCodec.DecodeLength` | external/src/paho.mqtt-sn.embedded-c/MQTTSNPacket/MQTTSNPacket.c:86-111 | one or three bytes of length, or the read error |
| `PacketCodec.SerializePublish` | external/src/paho.mqtt-sn.embedded-c/MQTTSNPacket/MQTTSNSerializePublish.c:54-103 | too short and untouched, or length field and body at the front, the rest of the buffer untouched, and the number of bytes |
| `PacketCodec.SerializePuback` | external/src/paho.mqtt-sn.embedded-c/MQTTSNPacket/MQTTSNSerializePublish.c:106-131 | too short and untouched, or length field and body at the front, the rest of the buffer untouched, and the number of bytes |
| `PacketCodec.SerializeRegister` | external/src/paho.mqtt-sn.embedded-c/MQTTSNPacket/MQTTSNSerializePublish.c:226-254 | too short and untouched, or length field and body at the front, the rest of the buffer untouched, and the number of bytes |
| `PacketCodec.SerializeRegack` | external/src/paho.mqtt-sn.embedded-c/MQTTSNPacket/MQTTSNSerializePublish.c:266-290 | too short and untouched, or length field and body at the front, the rest of the buffer untouched, and the number of bytes |
| `PacketCodec.SerializeSubscribe` | external/src/paho.mqtt-sn.embedded-c/MQTTSNPacket/MQTTSNSubscribeClient.c:51-95 | too short and untouched, or length field and body at the front, the rest of the buffer untouched, and the number of bytes |
| `PacketCodec.SerializeSuback` | external/src/paho.mqtt-sn.embedded-c/MQTTSNPacket/MQTTSNSubscribeServer.c:103-132 | too short and untouched, or length field and body at the front, the rest of the buffer untouched, and the number of bytes |
| `PacketCodec.SerializeUnsubscribe` | external/src/paho.mqtt-sn.embedded-c/MQTTSNPacket/MQTTSNUnsubscribeClient.c:41-82 | too short and untouched, or length field and body at the front, the rest of the buffer untouched, and the number of bytes |
| `PacketCodec.SerializeConnect` | external/src/paho.mqtt-sn.embedded-c/MQTTSNPacket/MQTTSNConnectClient.c:46-74 | too short and untouched, or length field and body at the front, the rest of the buffer untouched, and the number of bytes |
| `PacketCodec.SerializeDisconnect` | external/src/paho.mqtt-sn.embedded-c/MQTTSNPacket/MQTTSNConnectClient.c:132-154 | too short and untouched, or length field and body at the front, the rest of the buffer untouched, and the number of bytes |
| `PacketCodec.DeserializePublish` | external/src/paho.mqtt-sn.embedded-c/MQTTSNPacket/MQTTSNDeserializePublish.c:36-102 | the fields at the cursor and 1, or no fields and the size of the length field, for all bytes |
| `PacketCodec.DeserializeAck` | external/src/paho.mqtt-sn.embedded-c/MQTTSNPacket/MQTTSNDeserializePublish.c:105-130 | the fields at the cursor and 1, or no fields and the size of the length field, for all bytes |
| `PacketCodec.DeserializeRegister` | external/src/paho.mqtt-sn.embedded-c/MQTTSNPacket/MQTTSNDeserializePublish.c:176-204 | the fields at the cursor and 1, or no fields and the size of the length field, for all bytes |
| `PacketCodec.DeserializeSubscribe` | external/src/paho.mqtt-sn.embedded-c/MQTTSNPacket/MQTTSNSubscribeServer.c:32-90 | the fields at the cursor and 1, or no fields and the size of the length field, for all bytes |
| `PacketCodec.DeserializeSuback` | external/src/paho.mqtt-sn.embedded-c/MQTTSNPacket/MQTTSNSubscribeClient.c:108-137 | the fields at the cursor and 1, or no fields and the size of the length field, for all bytes |
| `PacketCodec.DeserializeUnsubscribe` | external/src/paho.mqtt-sn.embedded-c/MQTTSNPacket/MQTTSNUnsubscribeServer.c:20-74 | the fields at the cursor and 1, or no fields and the size of the length field, for all bytes |
| `PacketCodec.DeserializeConnect` | external/src/paho.mqtt-sn.embedded-c/MQTTSNPacket/MQTTSNConnectServer.c:31-65 | the fields at the cursor and 1, or no fields and the size of the length field, for all bytes |
| `PacketCodec.DeserializeDisconnect` | external/src/paho.mqtt-sn.embedded-c/MQTTSNPacket/MQTTSNConnectServer.c:105-130 | the fields at the cursor and 1, or no fields and the size of the length field, for all bytes |
| `PacketOctets.PublishOnWire` | external/src/paho.mqtt-sn.embedded-c/MQTTSNPacket/MQTTSNSerializePublish.c:54-103 | PUBLISH, octet by octet: length, 0x0c, flags, topic, packet id, name and payload, or -2 if that many do not fit |
| `PacketOctets.AckOnWire` | external/src/paho.mqtt-sn.embedded-c/MQTTSNPacket/MQTTSNSerializePublish.c:106-131 | PUBACK and REGACK, octet by octet |
| `PacketOctets.RegisterOnWire` | external/src/paho.mqtt-sn.embedded-c/MQTTSNPacket/MQTTSNSerializePublish.c:226-254 | REGISTER, octet by octet |
| `PacketOctets.SubscribeOnWire` | external/src/paho.mqtt-sn.embedded-c/MQTTSNPacket/MQTTSNSubscribeClient.c:51-95 | SUBSCRIBE, octet by octet |
| `PacketOctets.SubackOnWire` | external/src/paho.mqtt-sn.embedded-c/MQTTSNPacket/MQTTSNSubscribeServer.c:103-132 | SUBACK, octet by octet |
| `PacketOctets.UnsubscribeOnWire` | external/src/paho.mqtt-sn.embedded-c/MQTTSNPacket/MQTTSNUnsubscribeClient.c:41-82 | UNSUBSCRIBE, octet by octet |
| `PacketOctets.ConnectOnWire` | external/src/paho.mqtt-sn.embedded-c/MQTTSNPacket/MQTTSNConnectClient.c:46-74 | CONNECT, octet by octet |
| `PacketOctets.DisconnectOnWire` | external/src/paho.mqtt-sn.embedded-c/MQTTSNPacket/MQTTSNConnectClient.c:132-154 | DISCONNECT, octet by octet |
| `PacketOctets.FlagsAreOctet` | external/src/paho.mqtt-sn.embedded-c/MQTTSNPacket/MQTTSNPacket.h:83-108 | each bit field at its place in the flags octet |
| `PacketFormat.OtherTypeIsRefused` | external/src/paho.mqtt-sn.embedded-c/MQTTSNPacket/MQTTSNDeserializePublish.c:46-53 | a packet of another type is refused |
| `PacketFormat.ReservedTypeIsNormal` | external/src/paho.mqtt-sn.embedded-c/MQTTSNPacket/MQTTSNDeserializePublish.c:36-102 | the reserved topic type is read as the normal one, and a set dup bit as 255 |
| `PacketFormat.MalformedIsRefused` | external/src/paho.mqtt-sn.embedded-c/MQTTSNPacket/MQTTSNConnectServer.c:31-65 | refused are packets that announce more than the buffer holds, a CONNECT of another protocol, a DISCONNECT of another length |
| `PacketRoundTrips.PublishThrough` | external/src/paho.mqtt-sn.embedded-c/MQTTSNPacket/MQTTSNSerializePublish.c:54-103 | a PUBLISH written to a buffer of at most 255 bytes, unless reported too short, has the octets of its message and is deserialized to the same fields, its topic and payload if and only if it is not a normal id with a quality of service that is 3 in two bits |
| `PacketRoundTrips.AckThrough` | external/src/paho.mqtt-sn.embedded-c/MQTTSNPacket/MQTTSNSerializePublish.c:106-131 | a PUBACK or REGACK comes back the same |
| `PacketRoundTrips.RegisterThrough` | external/src/paho.mqtt-sn.embedded-c/MQTTSNPacket/MQTTSNSerializePublish.c:226-254 | a REGISTER comes back the same |
| `PacketRoundTrips.SubscribeThrough` | external/src/paho.mqtt-sn.embedded-c/MQTTSNPacket/MQTTSNSubscribeClient.c:51-95 | a SUBSCRIBE comes back the same |
| `PacketRoundTrips.SubackThrough` | external/src/paho.mqtt-sn.embedded-c/MQTTSNPacket/MQTTSNSubscribeServer.c:103-132 | a SUBACK comes back the same |
| `PacketRoundTrips.UnsubscribeThrough` | external/src/paho.mqtt-sn.embedded-c/MQTTSNPacket/MQTTSNUnsubscribeClient.c:41-82 | an UNSUBSCRIBE comes back the same |
| `PacketRoundTrips.ConnectThrough` | external/src/paho.mqtt-sn.embedded-c/MQTTSNPacket/MQTTSNConnectClient.c:46-74 | a CONNECT comes back the same |
| `PacketRoundTrips.DisconnectThrough` | external/src/paho.mqtt-sn.embedded-c/MQTTSNPacket/MQTTSNConnectClient.c:132-154 | a DISCONNECT comes back with its duration modulo 65536, or without one |
| `LoopControllers.LogIsSessions` | libNbiot/src/nbiotloop.h:98-150 | a log that is nowhere wrong is a row of complete sessions - dropped, failed to start, or one start, steps up to the first without more to do, one stop, or a break - none inside another, at most the last still open |
| `LoopControllers.SteppedTells` | libNbiot/src/nbiotloopclient.h:79-134 | the result of a turn read off its last handler call: failed without a step handler or with a failed stop handler, done with its stop, pending while it has more to do |
| `LoopControllers.DropsAfterTurn` | libNbiot/src/nbiotloop.h:159-175 | clients dropped after a failed turn follow the entry that tells of the failure |
| `LoopControllers.SkippedIffBroken` | libNbiot/src/nbiotloopclient.h:51-73 | in such a log a turn begins without its start handler being asked if and only if that client's turn before it was broken off |
| `LoopControllers.StaleIsLeftPending` | libNbiot/src/nbiotloop.h:223-229 | the clients kept account of as left pending are those whose last turn was broken off |
| `LoopControllers.LoggedDrops` | libNbiot/src/nbiotloop.h:223-229 | a clearance gives every waiting client its turn as dropped, in order |
| `LoopControllers.NbiotLoop.NbiotLoop` | libNbiot/src/nbiotloop.h:98-153 | one turn, also with a break: log, queue, active client and who is left pending; its result is the one the last entry of the log tells |
| `LoopControllers.NbiotLoop.StepClient` | libNbiot/src/nbiotloop.h:108-116 | one step of the active client, with its stop in the same turn if it is the last |
| `LoopControllers.NbiotLoop.StartClient` | libNbiot/src/nbiotloop.h:126-136 | the next client in registration order is started, or taken as started if it was left pending |
| `LoopControllers.NbiotLoop.RegisterLoopClient` | libNbiot/src/nbiotloop.h:159-175 | append a client, or with null clear everything, the active client included |
| `LoopControllers.NbiotLoop.Clear` | libNbiot/src/nbiotloop.h:223-229 | the active turn is broken off, everyone waiting dropped, and the active client left pending |
| `LoopControllers.NbiotLoop.LoopBreak` | libNbiot/src/nbiotloop.h:180-186 | the break flag is only set while someone waits |
| `LoopControllers.NbiotLoop.PendingIsActive` | libNbiot/src/nbiotloop.h:98-153 | a client is pending if it is the active one, or else exactly if its last turn was broken off |
| `LoopControllers.NbiotLoop.NotBusyMeansEmpty` | libNbiot/src/nbiotloop.h:203-203 | not busy means nobody waiting, nobody active, and everyone registered has had a turn |
| `LoopControllers.NbiotLoop.Cycle` | libNbiot/src/nbiotmqtt.cpp:101-141 | after a failure the controller is cleared and not busy; pending exactly while a client is active; without a break nobody is dropped but behind a failure; nobody is newly left pending unless a break hits an active client, and then somebody is |
| `LoopControllers.LoopClient.PreLoopStep` | libNbiot/src/nbiotloopclient.h:51-73 | start handler and result, skipped while pending; the handler itself notes its call |
| `LoopControllers.LoopClient.LoopStep` | libNbiot/src/nbiotloopclient.h:79-109 | step handler, then the stop handler once there is no more to do, each noted where it is called, the last telling the result; nothing unless pending |
| `LoopControllers.LoopClient.PostLoopStep` | libNbiot/src/nbiotloopclient.h:115-134 | stop handler and result; nothing unless pending |
| `RetransmissionSpec.SendsAreBounded` | libNbiot/src/nbiotmqttsnclient.cpp:425-475 | a session sends at most 1 + `maxRetry` packets, the first with its own id and DUP 0, the others with DUP 1 |
| `RetransmissionSpec.ExhaustedFails` | libNbiot/src/nbiotmqttsnclient.cpp:453-475 | a session that comes to a step with the timer expired and no retries left, or a resend that fails, ends with that step, and in failure whatever arrives |
| `RetransmissionSpec.SucceedsIff` | libNbiot/src/nbiotmqttsnclient.cpp:585-618 | a session that waits succeeds if and only if its last step had time left, and so was acknowledged, and the reply is no rejection of the packet in flight, or of the subscription |
| `RetransmissionSpec.SilenceUsesRetries` | libNbiot/src/nbiotmqttsnclient.cpp:453-475 | a session that is never answered sends once more in each timeout while retries are left |
| `RetransmissionSpec.SentAgainWhenOver` | libNbiot/src/nbiotmqttsnclient.cpp:453-475 | with the time over a step sends again, with DUP, and starts the time anew |
| `RetransmissionSpec.NothingSentInTime` | libNbiot/src/nbiotmqttsnclient.cpp:453-475 | before the time is over nothing is sent and no retry used up |
| `RetransmissionSpec.InflightIsLastSent` | libNbiot/src/nbiotmqttsnclient.cpp:518-542 | the packet a PUBACK is compared with is the one that was sent last |
| `RetransmissionSpec.UnacknowledgedIsSentOnce` | libNbiot/src/nbiotmqttsnclient.cpp:453-475 | a publish with quality of service 0 is sent once and succeeds |
| `RetransmissionSpec.SameIdIff` | libNbiot/src/nbiotmqttsnclient.cpp:569-582 | every packet sent carries the id of the session if and only if each resend was made by the first step, or after a step that happened to leave that many milliseconds |
| `RetransmissionSpec.ResendUnderAnotherId` | libNbiot/src/nbiotmqttsnclient.cpp:569-582 | a run of two steps whose second packet goes out under another id |
| `Retransmissions.Session.RunSession` | libNbiot/src/nbiotmqttsnclient.cpp:425-618 | packets sent, steps taken and verdict of a whole session as the fold over its inputs; a step that finds it exhausted fails it, and the packets carry one id exactly as SameIdIff says |
| `Retransmissions.Session.DoLoop` | libNbiot/src/nbiotmqttsnclient.cpp:453-475 | a step resends exactly if the timer has expired and retries are left, which uses one up and on success restarts the timer; otherwise the timer stays; the loop value becomes the time left |
| `Retransmissions.Session.StartLoop` | libNbiot/src/nbiotmqttsnclient.cpp:441-450 | the first send, with DUP 0, starts the timer if it succeeds and leaves it otherwise |
| `Retransmissions.Session.FinishLoop` | libNbiot/src/nbiotmqttsnclient.cpp:585-618 | the verdict on the acknowledgement; none in time is a failure, one for another packet id passes |
| `Retransmissions.Session.SendPacket` | libNbiot/src/nbiotmqttsnclient.cpp:518-542 | one packet with the low 16 bits of the loop value as its id |
| `Retransmissions.Session.constructor` | libNbiot/src/nbiotmqttsnclient.cpp:236-267 | retry budget, time left and packet id of a session |
| `CircularBuffers.CircularBuffer.CountsAgree` | libNbiotCore/include/nbiotcircularbuffer.h:82-100 | size, capacity, empty and full agree with the queue |
| `CircularBuffers.CircularBuffer.Put` | libNbiotCore/include/nbiotcircularbuffer.h:121-135 | one byte behind the others, or nothing when full |
| `CircularBuffers.CircularBuffer.Get` | libNbiotCore/include/nbiotcircularbuffer.h:166-180 | the first byte, or nothing when empty |
| `CircularBuffers.CircularBuffer.PutBulk` | libNbiotCore/include/nbiotcircularbuffer.h:137-164 | all bytes in order even when they wrap, or nothing; of the empty run exactly when it keeps the ring well formed |
| `CircularBuffers.CircularBuffer.GetBulk` | libNbiotCore/include/nbiotcircularbuffer.h:182-209 | that many bytes in order even when they wrap, or nothing; of the empty run exactly when it keeps the ring well formed |
| `CircularBuffers.CircularBuffer.Reset` | libNbiotCore/include/nbiotcircularbuffer.h:75-80 | the empty ring |
| `CircularBuffers.CircularBuffer.PutSingly` | libNbiotCore/include/nbiotcircularbuffer.h:121-135 | single puts of all bytes append those that fit |
| `CircularBuffers.CircularBuffer.GetSingly` | libNbiotCore/include/nbiotcircularbuffer.h:166-180 | single gets return the front bytes in order |
| `CircularBuffers.CircularBuffer.BulkPutLikeSingle` | libNbiotCore/include/nbiotcircularbuffer.h:137-164 | of two rings with the same contents, an accepted bulk put leaves one as single puts leave the other |
| `CircularBuffers.CircularBuffer.BulkGetLikeSingle` | libNbiotCore/include/nbiotcircularbuffer.h:182-209 | of two rings with the same contents, an accepted bulk get returns and leaves what single gets do |
| `CircularBuffers.EachPutKeepsPrefix` | libNbiotCore/include/nbiotcircularbuffer.h:121-135 | single puts keep the longest prefix that fits |
| `Networks.Network.Read` | libNbiotCore/src/modems/BC95-G_BC68_B300SP2/network.cpp:104-231 | exactly as many bytes as the looks of the read announce, at most `len`; counter and ring keep their account - announced bytes are in the ring, and the bytes returned over the whole run are a prefix of those accepted - if and only if the loop runs once, nothing is announced, or enough is |
| `Networks.EnoughIsRead` | libNbiotCore/src/modems/BC95-G_BC68_B300SP2/network.cpp:133-183 | a read returns all it was asked for as soon as that many bytes are announced at one look |
| `Networks.LooksAddUp` | libNbiotCore/src/modems/BC95-G_BC68_B300SP2/network.cpp:133-183 | two looks that each find too little add up |
| `Networks.Network.LookOut` | libNbiotCore/src/modems/BC95-G_BC68_B300SP2/network.cpp:133-183 | the loop of a read takes what each look announces until that is enough or the time is over |
| `Networks.Network.DrainRest` | libNbiotCore/src/modems/BC95-G_BC68_B300SP2/network.cpp:185-208 | the bytes still wanted, in order; the account is kept if and only if that many are announced |
| `Networks.Network.ParseFilterResult` | libNbiotCore/src/modems/BC95-G_BC68_B300SP2/network.cpp:267-301 | a notification for this socket sets the counter to what fits and puts those bytes in order, from behind the payload when more are announced than it has |
| `Networks.Network.DatagramThrough` | libNbiotCore/src/modems/BC95-G_BC68_B300SP2/network.cpp:104-301 | a datagram that fits into the empty ring is read back whole |
| `Networks.Network.ReadResponse` | libNbiotCore/src/modems/BC95-G_BC68_B300SP2/network.cpp:104-231 | notifications that arrive during a response take effect one after the other |
| `Networks.Network.Drain` | libNbiotCore/src/modems/BC95-G_BC68_B300SP2/network.cpp:165-175 | single reads, counting down modulo the width of the counter |
| `Serials.Serial.ReadLine` | libNbiotCore/src/serial.cpp:146-258 | the calls made, the line returned or the timeout reported, and the bytes left are those of the delivery of the non-empty lines of the stream |
| `Serials.EachLineOnce` | libNbiotCore/src/serial.cpp:146-258 | each non-empty line has exactly one receiver, in stream order; the returned one has no filter |
| `Serials.Serial.ReadLines` | libNbiotCore/src/serial.cpp:146-258 | reading until the stream has no more lines returns exactly the lines without a filter, and calls handlers for exactly the others, each in stream order |
| `Serials.OneReceiver` | libNbiotCore/src/serial.cpp:146-258 | over all those reads each line has exactly one receiver |
| `Serials.DeliverThenRest` | libNbiotCore/src/serial.cpp:146-258 | one read and those after it make up the whole |
| `Serials.SentIsRead` | libNbiotCore/src/serial.cpp:168-236 | lines that are sent, each with its end, are the lines that are read |
| `Serials.LinesAreClean` | libNbiotCore/src/serial.cpp:168-236 | every line that is read is not empty and holds no carriage return, line feed or zero byte |
| `Serials.NextLineSkips` | libNbiotCore/src/serial.cpp:168-236 | outside simple mode the line that has begun is skipped |
| `Serials.CallsAreRight` | libNbiotCore/src/serial.cpp:193-215 | every call goes to the first filter that prefixes its line |
| `Serials.Serial.IndexOf` | libNbiotCore/include/urcfilterlist.h:90-90 | the first filter that prefixes a line |
| `Serials.OutlookByCharacter` | libNbiotCore/src/serial.cpp:168-236 | what one more byte changes about the delivery of the whole stream |

## Left out

- AT command traffic, modem drivers, UART and socket code, board examples and debug output: they are input and output; modem answers, send outcomes, clock readings and arriving bytes are arbitrary parameters.
- User callbacks that call back into the client: they would nest a dispatch, and are taken not to.
- The MQTT connection side of entry actions (connect, disconnect, loop registration, notifications, `m_cleanSession`, `m_hasSubscription`, the wait timer): it changes none of the fields the theorems are about.
- `publish`, `subscribe`, `unsubscribe` and `poll`: of the state machine they only send Wakeup and Disconnect events, which the allowed operations of a run include in every state.
- Setters of the client other than for login, duration and error number.
- A timer query reads the clock once; in the source `expired` reads it a second time when the timer still runs.
- The wiring of `setUpStateMachine` is a constant graph, not the calls that build it.
- PacketFormat.SerializedIsFramed: is about buffers of at most 255 bytes, because longer packets carry a broken length field; what is written for them is in the serializers' contracts and in HeaderReadsBack.
- Rejection of a wrong packet type by the deserializers: their return value is then the size of the length field, which is 1 as on success. The model returns the fields beside it.
- Deserializers on memory that does not hold the bytes they look at: the model requires those bytes.
- UNSUBACK, CONNACK, PING and WILL packets, and packet ids of QoS 2: same shapes, easier claims.
- A string for REGISTER or CONNECT is given in one of its two forms; what happens if both are set is not modelled.
- What lies in memory behind a decoded notification: when more bytes are announced than it carries, those behind it are given as a parameter.
- The width of `unsigned long` is taken to be 32 bits.
- The copy of the read bytes into the caller's buffer by `string::copy`, which also writes a terminating zero.
- Serials.Serial.ReadLine: starts from an empty line and ends when the bytes that arrive in time are used up; the timer itself and missing UART functions are not modelled.
- Short topics and topic lookups by id or short name, `messageDispatcher` and `hasAnyTopic`: easy members.
- A bound on the number of registered topics: registrations by the gateway can land between check and insertion.
- Deallocation of list nodes: a node that is unlinked is no longer part of the chain.
- Step handlers that clear the controller or call the loop from inside.
