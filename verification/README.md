# Verification model of pj_bridge

pj_bridge forwards robot middleware topics (ROS 2 or DDS) to PlotJuggler clients over WebSocket. This project
models its backend-agnostic core and the self-contained algorithms of its backends, and proves what they keep over
every input, every interleaving and every run. Methods that change state in the program are class methods here, each
proved equal to a function from the old state to the new one; the lemmas are about those functions and about the state
machines built from them.

| file | what it models |
|---|---|
| `Common.dfy` | shared types, subsequences, totals of counter tables |
| `SessionManager.dfy` | the session map: subscriptions, held references, paused flag |
| `SubscriptionManager.dfy` | the ROS 2 backend's reference counts and the saturating history depth |
| `MessageBuffer.dfy` | buffering, eviction by age, draining, retained samples of latched topics |
| `BridgeCore.dfy` | the critical sections of the request handlers, and the invariant each keeps |
| `BridgeLaws.dfy` | what each section does to sessions, references and replays, without the section functions |
| `BridgeServer.dfy` | the same sections as imperative code over the three managers |
| `BridgeProtocol.dfy` | handlers, publish cycles, socket-thread cleanup and ingestion interleaving at lock granularity |
| `LatchHistory.dfy` | which creation a topic's latch goes back to |
| `ReplayDelivery.dfy` | retained samples on their way to a client that joins |
| `SessionHistory.dfy` | what a client was told within its current session |
| `RateLimiter.dfy` | clamping, integer intervals, greedy admission |
| `Publisher.dfy` | the publish cycle: grouping, light and heavy frames, forward statistics |
| `PublishLaws.dfy` | what a client gets in a cycle, message by message, without the functions that compute it |
| `GroupChanges.dfy` | publish cycles whose groups, rates and sessions change in between |
| `TopicWatch.dfy` | diffing the topic list between polls |
| `Backpressure.dfy` | the bounded drop-oldest queue and the flush/send/shed/queue policy |
| `Middleware.dfy` | the WebSocket middleware's locked sections |
| `SendProtocol.dfy` | sends, disconnects, discards, shutdown and socket drains interleaving; where every frame goes |
| `WireOrder.dfy` | the order in which frames reach a client's wire |
| `Congestion.dfy` | how full a socket gets, and the backlog of a socket that stays congested |
| `SchemaExtractor.dfy` | recursive expansion of message definitions, with both caches |
| `FastDds.dfy` | the three-phase subscribe racing with itself and with unsubscribe |
| `MessageSerializer.dfy` | the wire format, and the decoder of the integration-test client |

## How to read it

* **Reference counts and latched topics.** `BridgeCore` holds one function per critical section of the cleanup lock.
  `BridgeProtocol` interleaves them with the steps the handlers take outside the lock, with the disconnect callback
  (which runs its clean-up topic by topic while holding the lock) and with message ingestion. A disconnect may land
  between any two steps, and a backend subscribe may fail arbitrarily.
* **Publish cycle.** `GroupingRefinesAlone` compares the program's grouped cycle with a reference definition that
  serves each client alone; the imperative `Publisher.BuildFrames` is tied to the grouped definition.
* **Sends.** `SendProtocol` takes one step per section under the clients lock and per socket call; one send may be in
  flight per client, for any number of clients at once. `StepsFollowPolicy` ties these steps to the policy loop.
* **False laws.** The send path does not keep frames in order when the socket drains between the two readings of one
  call: `FramesCanOvertake` is such a run. Over whole runs, `OrderedUnlessOvertaken` gives the exact condition for all
  frames that are on the wire or can still reach it, and `WireOrderedExactly` the one for the wire by itself;
  `OvertakingBreaksOrder` gives the one at the last reading of a call, and `GuardedWireKeepsOrder` the guard under
  which every run keeps the order. Nor does the publish cycle keep a client's spacing when a fresh client represents
  its group: `JoinerBreaksSpacing` is such a run, `AgreementIsExact` and `LeadingIsExact` are the exact conditions for
  one cycle, and `SpacingAcrossGroups` is the law over runs under the second. A client that lists topics between two
  polls can keep one that is gone (`ViewCanGoStale`); `ViewCatchesUp` says exactly when it does not. The codec round trip and the header fail exactly for fields that do not fit
  (`RoundTrip`, `HeaderRoundTrip`; `OversizedNameIsLost` is such a message). Only `set_ref_held` can break the
  inclusion of held in subscribed topics, and `OnlySetRefHeldBreaks` says when.

## Where code and comments disagree

The model follows the code: `move_messages` replaces its output instead of appending to it; the FastDDS backend closes
the entities of a lost race while it still holds its lock, although a comment says otherwise. Pausing promises that
subscriptions survive, not that every reference comes back: `PauseThenResume` says which ones do.

## Model

| member | source | states |
|---|---|---|
| BridgeProtocol.ReferenceCountsExact | app/src/bridge_server.cpp:393-450 | In every reachable state of every interleaving, whenever the cleanup lock is free: each topic's backend count is the number of sessions holding it, stored counts are positive, paused sessions hold nothing, and no sessions means no references and no retained samples; at all times held topics are subscribed and no release ever found a zero count |
| BridgeProtocol.CountsDuringCleanup | app/src/bridge_server.cpp:944-973 | In the middle of a clean-up the count of each topic is short by exactly what was already given back for the session that is about to go |
| BridgeProtocol.SchemaBeforeData | app/src/bridge_server.cpp:212-239 | In every run, each data or replay frame for a client is preceded by a response successfully sent to that client that carried the schema of each of the frame's topics |
| SessionHistory.GatheredWasToldInSession | app/src/bridge_server.cpp:1031-1042 | In every run, whenever a publish cycle gathers a client's topics, each topic's schema was successfully sent to that client and its session was not cleaned up since |
| SessionHistory.ReplayWasToldInSession | app/src/bridge_server.cpp:222-239 | In every run, the schema of every replay frame taken for sending was sent to that client since its last clean-up |
| SessionHistory.StepKeeps | app/src/bridge_server.cpp:164-240 | Every step keeps a client's subscriptions and pending replays within what it was, or is about to be, told in this session |
| SessionHistory.EndingEnds | app/src/bridge_server.cpp:944-973 | A timeout or clean-up step leaves no session and no pending replay of the client |
| SessionHistory.DisconnectTakesAll | app/src/bridge_server.cpp:944-973 | A disconnect takes pending replays first, then one reference per held topic, and the session only when none is left to release |
| BridgeProtocol.NoReplayStrands | app/src/bridge_server.cpp:222-239 | Between requests no replay frame is pending for anyone; during a request only its own client can have some, even when disconnects interleave |
| BridgeProtocol.LatchFollowsSubscription | app/src/bridge_server.cpp:932-942 | A topic is latched exactly while a transient-local subscription exists, which some session then holds, and a latched topic with buffered messages retains the last of them |
| LatchHistory.LatchedAsCreated | ros2/src/generic_subscription_manager.cpp:171-185 | In every reachable state a topic is latched exactly if the subscribe or resume step that created its present subscription, with no absence since, got a transient-local one from the backend |
| LatchHistory.SubscriptionHasCreator | ros2/src/generic_subscription_manager.cpp:160-192 | Every subscription in every reachable state was created by a particular subscribe or resume step and carries the flag the backend gave it there |
| ReplayDelivery.SubscriberGetsSample | app/src/bridge_server.cpp:212-239 | In every run, if a live unpaused client subscribes to an obtainable topic whose retained sample is no longer buffered, and the response gets out with the client still there, a frame for the topic is on its wire when the request finishes |
| ReplayDelivery.ResumerGetsSample | app/src/bridge_server.cpp:222-239 | The same for a client that resumes, for each topic it gains |
| ReplayDelivery.TakenFramesAreSent | app/src/bridge_server.cpp:228-239 | Every replay frame taken after a response is on the wire when the request finishes, once, in order and with nothing in between |
| ReplayDelivery.PendingUntilTaken | app/src/bridge_server.cpp:432-438 | What a section queued stays queued until it is taken, unless the response is lost or the client disconnects |
| BridgeProtocol.ReachableInv | app/src/standalone_event_loop.cpp:67-87 | The full inductive invariant holds in every state any interleaving can reach |
| BridgeProtocol.NextKeepsInv | app/src/bridge_server.cpp:164-240 | Every single step of event loop, socket thread or ingestion keeps the full invariant |
| BridgeProtocol.ToldBy | app/src/bridge_server.cpp:427-430 | A topic in what a client was told stems from one particular response to that client |
| BridgeCore.NoSessionsNoRefs | app/src/bridge_server.cpp:932-973 | When the last session is gone, no reference, latch or retained sample is left |
| BridgeCore.CleanupKeepsInv | app/src/bridge_server.cpp:944-973 | Removing a session and its references keeps counts, latches and sessions consistent |
| BridgeCore.PauseKeepsInv | app/src/bridge_server.cpp:565-587 | Pausing keeps counts, latches and sessions consistent |
| BridgeCore.UnsubscribeKeepsInv | app/src/bridge_server.cpp:501-529 | Dropping any set of names keeps counts, latches and sessions consistent, whichever were held |
| BridgeCore.SubscribeKeepsInv | app/src/bridge_server.cpp:397-450 | A subscribe section keeps the invariant, with the session gone or paused and with backend failures, if its topics were not subscribed before |
| BridgeCore.ResumeKeepsInv | app/src/bridge_server.cpp:616-660 | Resuming keeps the invariant for any iteration order, availability and backend failures |
| BridgeCore.PauseThenResume | app/src/bridge_server.cpp:565-660 | Pause followed by resume preserves all sessions' subscriptions and rates, and the client holds again exactly the available topics that another session kept alive or the backend can recreate |
| BridgeCore.ResumeAllHolds | app/src/bridge_server.cpp:634-659 | For any order, a resuming session ends up holding exactly the tried topics that were available and already subscribed or creatable |
| BridgeCore.RollbackRestores | app/src/bridge_server.cpp:418-424 | Acquiring a reference and rolling it back because the session vanished leaves no trace at all |
| BridgeCore.SubscribeAllSession | app/src/bridge_server.cpp:401-441 | The client's new subscriptions are exactly the topics whose schema goes into the response; other sessions are untouched |
| BridgeCore.SubscribeAllReports | app/src/bridge_server.cpp:401-441 | For a live session, schemas and failures partition the validated topics, and the topics with a schema are recorded with their rates and, unless paused, held |
| BridgeCore.ReleaseAllStep | app/src/bridge_server.cpp:932-942 | Releasing references one by one, in any order, is the same as releasing the set at once |
| BridgeCore.CollectDeliversOnce | app/src/bridge_server.cpp:885-930 | For a client joining a latched topic the retained sample is queued as a replay frame, behind its others, exactly if it is not still in the normal buffer |
| BridgeCore.SubscribeAllReplays | app/src/bridge_server.cpp:432-438 | A subscribe section queues replay frames only for its own client and only for topics whose schema is in the response |
| BridgeCore.SubscribeSectionEffects | app/src/bridge_server.cpp:397-450 | The whole section, rate updates included, adds exactly the topics with a schema to its client's subscriptions and leaves other sessions alone |
| BridgeLaws.SubscribeExactly | app/src/bridge_server.cpp:332-450 | A subscribe request for a live session: unpaused, it succeeds for exactly the validated topics that have or get a backend subscription and reports the rest, holds one more reference for each success, gives each fresh subscription the flag the backend created it with, and queues one frame for each of these topics whose retained sample is no longer buffered; paused, it succeeds for all and touches neither references nor replays; either way the session ends up with its old and the successful topics, explicit rates replacing old ones and bare names keeping them |
| BridgeLaws.SubscribeWithoutSession | app/src/bridge_server.cpp:415-424 | A request whose session has vanished changes nothing and reports no topic as subscribed |
| BridgeLaws.ResumeExactly | app/src/bridge_server.cpp:616-660 | Resuming a paused session gains a reference for exactly the topics it lacked that are available and have or get a backend subscription, queues their stored samples, clears the flag and changes nothing else; resuming any other session changes nothing |
| BridgeLaws.PauseExactly | app/src/bridge_server.cpp:565-587 | Pausing keeps subscriptions and rates, gives back one reference for exactly the held topics, and does nothing to a paused session |
| BridgeLaws.UnsubscribeExactly | app/src/bridge_server.cpp:501-529 | Exactly the named topics and the references held for them go; other topics, their rates and other sessions stay |
| BridgeLaws.CleanupExactly | app/src/bridge_server.cpp:944-973 | The session, one reference for each topic it held and its pending replays go; buffered messages and other sessions stay |
| BridgeLaws.CollectExactly | app/src/bridge_server.cpp:885-930 | Joining a topic latches it exactly if its subscription is transient-local, and queues its retained sample exactly if that is not still buffered |
| BridgeCore.ResumeAllReplays | app/src/bridge_server.cpp:648-653 | A resume section queues replay frames only for its own client and only for the topics it tried |
| BridgeCore.ResumeSectionEffects | app/src/bridge_server.cpp:616-660 | Resuming changes no subscription or rate of any session, and queues replay frames only for its own client's subscribed topics |
| BridgeCore.UnsubscribeOneMore | app/src/bridge_server.cpp:506-528 | Processing one more name, repeated or never subscribed ones included, takes the set-level result for the names so far to the one for all |
| BridgeServing.BridgeServer.TouchSession | app/src/bridge_server.cpp:298-303 | Every handler starts by making sure the session exists and refreshing its heartbeat |
| BridgeServing.BridgeServer.ReleaseSubscriptionRef | app/src/bridge_server.cpp:932-942 | Gives one reference back and drops the latched state with the last one |
| BridgeServing.BridgeServer.CollectLatchedReplay | app/src/bridge_server.cpp:885-930 | Sets the latch from the subscription and queues the retained sample if it is not buffered |
| BridgeServing.BridgeServer.SubscribeTopic | app/src/bridge_server.cpp:401-441 | One validated topic: acquire, record, roll back if the session is gone, collect the replay |
| BridgeServing.BridgeServer.Subscribe | app/src/bridge_server.cpp:397-450 | The locked loop computes the section function: new state, schemas and failures |
| BridgeServing.BridgeServer.ApplyRates | app/src/bridge_server.cpp:443-449 | New rates for already subscribed topics are recorded, all at once whatever the order, and nothing else changes |
| BridgeServing.BridgeServer.ReleaseRefs | app/src/bridge_server.cpp:958-962 | The release loop over a hash set gives back exactly its references, in whatever order |
| BridgeServing.BridgeServer.Cleanup | app/src/bridge_server.cpp:944-973 | Drops pending replays even without a session, then the references and the session |
| BridgeServing.BridgeServer.Pause | app/src/bridge_server.cpp:565-587 | Marks the session paused, gives back every held reference and tells how many |
| BridgeServing.BridgeServer.ReleaseHeld | app/src/bridge_server.cpp:579-586 | Gives back and unmarks held topics one by one, ending with none held |
| BridgeServing.BridgeServer.Unsubscribe | app/src/bridge_server.cpp:501-529 | Drops exactly the requested names that were subscribed, each reported once |
| BridgeServing.BridgeServer.ResumeTopic | app/src/bridge_server.cpp:640-658 | One topic of a resume: acquired and marked held, or left without a reference |
| BridgeServing.BridgeServer.Resume | app/src/bridge_server.cpp:616-660 | Computes the resume section for the order the hash map yields, and reports as unavailable exactly the tried topics that end up without a reference |
| BridgeServing.ValidateTopics | app/src/bridge_server.cpp:332-391 | The validated topics are exactly the new ones that are whitelisted, exist and have a schema; every other new one is reported with the first of these three it lacks |
| SessionManagement.OnlySetRefHeldBreaks | app/src/session_manager.cpp:113-127 | Held topics stay within subscribed topics under every call, except exactly marking an unsubscribed topic of a live session as held |
| SessionManagement.CallsChangeOneSession | app/src/session_manager.cpp:28-258 | Each call changes only the fields it is about, of the one session it names; missing sessions stay missing |
| SessionManagement.HeartbeatPostponesTimeout | app/src/session_manager.cpp:44-54 | After a heartbeat a session times out exactly when more than the limit has passed since it |
| SessionManagement.SessionManager.CreateSession | app/src/session_manager.cpp:28-42 | Creates an empty session once; an existing one is left alone |
| SessionManagement.SessionManager.UpdateHeartbeat | app/src/session_manager.cpp:44-54 | Refreshes the heartbeat of an existing session only |
| SessionManagement.SessionManager.ReplaceSubscriptions | app/src/session_manager.cpp:68-87 | Replaces the subscriptions and keeps only references that are still subscribed |
| SessionManagement.SessionManager.KeepSubscribed | app/src/session_manager.cpp:78-85 | The erase loop leaves the intersection of held and subscribed topics |
| SessionManagement.SessionManager.AddSub | app/src/session_manager.cpp:89-99 | Adds or overwrites one topic's rate; a missing session is reported |
| SessionManagement.SessionManager.RemoveSub | app/src/session_manager.cpp:101-111 | Removes the topic and its held mark, reporting whether it was subscribed |
| SessionManagement.SessionManager.SetHeld | app/src/session_manager.cpp:113-127 | Marks or unmarks a held reference without looking at the subscriptions |
| SessionManagement.SessionManager.MarkPaused | app/src/session_manager.cpp:202-212 | Sets the paused flag of an existing session |
| SessionManagement.SessionManager.RemoveSession | app/src/session_manager.cpp:151-161 | Removes the session, reporting a missing one |
| SessionManagement.SessionManager.GetTimedOutSessions | app/src/session_manager.cpp:163-177 | Lists exactly the sessions whose last heartbeat is more than the timeout ago, each once |
| SubscriptionManagement.UnsubscribeUndoesSubscribe | ros2/src/generic_subscription_manager.cpp:160-213 | One unsubscribe undoes one successful subscribe, entry removal included |
| SubscriptionManagement.SubscriptionManager.SubscribeTopic | ros2/src/generic_subscription_manager.cpp:160-192 | Counts up or creates; a failing creation changes nothing |
| SubscriptionManagement.SubscriptionManager.UnsubscribeTopic | ros2/src/generic_subscription_manager.cpp:194-213 | Counts down and erases at zero; a missing topic is reported |
| SubscriptionManagement.AdaptDepth | ros2/src/generic_subscription_manager.cpp:108-146 | On 64-bit words that may wrap, the headroom loop yields the mathematical sum of the contributions if it is within the bounds and the nearer bound otherwise; with no publishers, the fallback capped by the maximum |
| SubscriptionManagement.OnePublisherCounts | ros2/src/generic_subscription_manager.cpp:142 | A reported depth counts as it is and an unreported one as 100 |
| SubscriptionManagement.SumIgnoresOrder | ros2/src/generic_subscription_manager.cpp:133-146 | The sum, hence the depth, does not depend on the order of the publishers |
| MessageBuffering.EveryRunAccounted | app/src/message_buffer.cpp:33-108 | Over every run of calls and any clock readings: what a topic received is what left it (evicted, drained or cleared) followed by what is buffered, in order; only messages past their age were evicted; retained keys are latched, no empty queue is stored, and a retained sample is the newest message ever received |
| MessageBuffering.JoiningLatchedTopic | app/src/message_buffer.cpp:54-95 | After any run, latching a topic for a joining client serves the newest message exactly one way, still buffered or as replay sample, if any is buffered or retained, and nothing otherwise |
| MessageBuffering.RetainedExactly | app/src/message_buffer.cpp:44-68 | Over every run a topic has a retained sample exactly if it was latched, has stayed so, and a message was buffered then or arrived since |
| MessageBuffering.LatchedExactly | app/src/message_buffer.cpp:54-68 | A topic is latched exactly if some call latched it and neither an unlatching nor a clear came after |
| MessageBuffering.EvictionIsExact | app/src/message_buffer.cpp:121-145 | In every run whose clock never steps back, each arrival evicts in every topic exactly the messages older than the limit |
| MessageBuffering.RetainedDeliveredOnce | app/src/message_buffer.cpp:79-95 | For a retained sample exactly one of "still in the buffer" and "returned for replay" holds |
| MessageBuffering.ApplyKeepsInv | app/src/message_buffer.cpp:33-108 | Every call keeps the agreement between latches, retained samples and queues |
| MessageBuffering.ExpiredIsAge | app/src/message_buffer.cpp:127-130 | The unsigned age test never wraps: it is the mathematical comparison for all clock values |
| MessageBuffering.PrefixIsExpired | app/src/message_buffer.cpp:124-136 | Whatever the clock did, the popped prefix is past its age and the first message kept is not |
| MessageBuffering.DropExpiredIsFilter | app/src/message_buffer.cpp:124-136 | With nondecreasing receive times, popping from the front equals filtering out every expired message |
| MessageBuffering.MessageBuffer.AddMessage | app/src/message_buffer.cpp:33-52 | Evicts, then appends the message and retains it if the topic is latched |
| MessageBuffering.MessageBuffer.SetLatched | app/src/message_buffer.cpp:54-68 | Latches, seeding the sample from the buffer if there is none, or clears the latched state |
| MessageBuffering.MessageBuffer.GetLatchedForReplay | app/src/message_buffer.cpp:79-95 | Returns the retained sample unless messages of the topic are still buffered |
| MessageBuffering.MessageBuffer.MoveMessages | app/src/message_buffer.cpp:97-101 | Hands out all buffered messages, replacing the caller's map, and keeps latched state |
| MessageBuffering.MessageBuffer.Clear | app/src/message_buffer.cpp:103-108 | Forgets messages, latches and samples |
| MessageBuffering.MessageBuffer.CleanupOldMessages | app/src/message_buffer.cpp:121-145 | The two passes, popping every queue and then erasing the empty ones, amount to one eviction of all topics |
| MessageBuffering.MessageBuffer.PopExpired | app/src/message_buffer.cpp:125-135 | The inner loop leaves the queue without its expired prefix |
| RateLimiting.ClampedRateUsable | app/src/bridge_server.cpp:42-56 | A rate is unlimited exactly if it was not positive; otherwise its milli-hertz are within 1 to 10^9 and its interval within 1000 to 10^12 ns |
| RateLimiting.IntervalIsPeriod | app/src/bridge_server.cpp:1129 | The interval is the period of the limit in nanoseconds rounded down: interval * milli-hertz is at most 10^12, and one more nanosecond would exceed it |
| RateLimiting.RateIsKept | app/src/bridge_server.cpp:42-56 | Rates between a thousandth and a million hertz are used as they are, others are moved to the nearest bound, and milli-hertz are the rate times 1000 rounded down |
| RateLimiting.IntervalBounds | app/src/bridge_server.cpp:1122-1129 | Every usable interval is within 1000 to 10^12 ns |
| RateLimiting.AdmitsIsSpacing | app/src/bridge_server.cpp:1132-1136 | The wrapping test is the intended spacing test unless the sum wraps to a value the timestamp has reached; both directions |
| RateLimiting.SentSpaced | app/src/bridge_server.cpp:1129-1138 | For timestamps in any order, consecutive admitted ones are at least the interval apart |
| RateLimiting.SentPairwise | app/src/bridge_server.cpp:1129-1138 | The j-th and i-th admitted timestamps are at least (j-i) intervals apart |
| RateLimiting.WindowBound | app/src/bridge_server.cpp:1129-1138 | k messages admitted within a window of width W satisfy (k-1) * interval <= W |
| RateLimiting.AdmissionAcrossCycles | app/src/bridge_server.cpp:1130-1138 | Admission over a concatenation is admission over the parts with the memory carried across |
| RateLimiting.RunIsOneStream | app/src/bridge_server.cpp:1130-1138 | Over any run of cycles one limiter admits what it would admit from the whole stream at once |
| RateLimiting.GreedyIsSelection | app/src/bridge_server.cpp:1132-1137 | What is admitted is a properly spaced subsequence of what arrived |
| RateLimiting.GreedyIsOptimal | app/src/bridge_server.cpp:1132-1137 | For nondecreasing timestamps no properly spaced selection is longer than the greedy one, and none of equal length ends earlier |
| Publishing.GroupingRefinesAlone | app/src/bridge_server.cpp:1026-1169 | While configurations stay fixed, in every cycle of every run and for any representatives, each client is served exactly what its own limiter would have served it alone since the start |
| GroupChanges.AgreementIsExact | app/src/bridge_server.cpp:1077-1140 | Whatever arrives and whichever representatives are picked, every client of a cycle is served what its own limiter would serve it, exactly if the members of each group agree on their limited topics |
| GroupChanges.ChangingGroupsRefineAlone | app/src/bridge_server.cpp:1026-1169 | With configurations and sessions changing from cycle to cycle, a client whose representatives always remember the same as it does is served in every cycle exactly what it would be served alone |
| GroupChanges.MatchedMemory | app/src/bridge_server.cpp:1142-1152 | And it is remembered, for every topic, as if it had always been served alone |
| GroupChanges.LeadingIsExact | app/src/bridge_server.cpp:1077-1152 | Whatever arrives, a cycle keeps a client's spacing and forgets none of its timestamps exactly if its representative remembers at least as much as the client on every topic |
| GroupChanges.SpacingAcrossGroups | app/src/bridge_server.cpp:1026-1152 | Over any run of changing groups, rates and sessions, a client whose representatives always remember at least as much as it does gets no message on a limited topic earlier than the interval in force after the one before it |
| GroupChanges.JoinerBreaksSpacing | app/src/bridge_server.cpp:1077-1078 | A run in which a fresh client represents the group, and a member with an interval of 1000 ns is served 1 ns after its last message |
| GroupChanges.ServeSpaced | app/src/bridge_server.cpp:1128-1139 | What one limiter serves on a limited topic in a cycle keeps the interval from where the limiter stood, and the limiter ends at the last of it |
| Publishing.RunsAgree | app/src/bridge_server.cpp:1142-1152 | While configurations stay fixed, members of a group keep indistinguishable limiter memories over any run, equal to those of the clients served alone |
| Publishing.GroupedIsAlone | app/src/bridge_server.cpp:1077-1140 | With agreeing members the choice of the representative does not matter, and each member remembers what it would alone |
| Publishing.GroupedKeepsAgreement | app/src/bridge_server.cpp:1142-1152 | A cycle re-establishes agreement whether or not it admitted anything, although it copies the memory only when it did |
| PublishLaws.MemoriesMove | app/src/bridge_server.cpp:1142-1152 | After a cycle the representative's memory has moved on, the other members have a copy exactly if the group was served anything, and nobody else's changed |
| Publishing.DueFramesAreAlone | app/src/bridge_server.cpp:1154-1167 | The frames due to a client are the light and heavy frames of what its own limiter admits |
| Publishing.DueFramesOverRuns | app/src/bridge_server.cpp:1026-1169 | While configurations stay fixed, in every cycle of every run the frames due to a client are those of its own limiter, run alone from the start |
| Publishing.OffersReach | app/src/bridge_server.cpp:1171-1180 | The send loop offers an unpaused client exactly the frames addressed to it, in order, each once, and a paused one nothing |
| Publishing.PassIsSent | app/src/bridge_server.cpp:1132-1137 | The messages let through carry exactly the timestamps the limiter admits |
| PublishLaws.ServeExactly | app/src/bridge_server.cpp:1115-1140 | For topics in any order, a limiter serves every drained message of an unlimited topic in order, of a limited topic exactly those at least the interval after the last one let through or remembered, and none of other topics |
| PublishLaws.ClientIsDue | app/src/bridge_server.cpp:1077-1167 | On each topic, the frames a client is due carry exactly what its own limiter lets through, each message once, small ones before large ones and each in order |
| PublishLaws.FramesCarryAll | app/src/bridge_server.cpp:1089-1113 | The frames of a group carry every served message exactly once; small ones share one frame, which goes first, and each large one has its own, marked heavy |
| PublishLaws.KeyKeepsRates | app/src/bridge_server.cpp:1036-1039 | A client's group key has exactly its topics with their rates in milli-hertz rounded down, so only rates under a thousandth of a hertz mean no limit |
| PublishLaws.KeysAreSubscriptions | app/src/bridge_server.cpp:1031-1042 | Exactly the active clients with subscriptions take part in a cycle, each with its own |
| PublishLaws.PassPicksDue | app/src/bridge_server.cpp:1132-1137 | The limiting loop lets through exactly the messages that are due, in order |
| Publishing.LanesPartition | app/src/bridge_server.cpp:1089-1113 | Light and heavy messages partition the admitted ones by size; a threshold of zero makes nothing heavy |
| Publishing.LaneKeepsOrder | app/src/bridge_server.cpp:1089-1113 | Within a lane the order of admission is kept |
| Publishing.ForwardCountsConserved | app/src/bridge_server.cpp:994-1006 | Over every run of cycles and snapshots, current plus handed-out per-topic counts add up to all messages published |
| Publishing.TopicCountsConserved | app/src/bridge_server.cpp:994-1006 | The same topic by topic: current plus handed-out counts of a topic are the messages of that topic in all counted frames |
| Publishing.TopicCountsExact | app/src/bridge_server.cpp:1080-1112 | A topic's forward count is the number of its messages in the counted frames |
| Publishing.TopicCountsTotal | app/src/bridge_server.cpp:1192-1198 | The per-topic counts of the forwarded frames add up to their messages |
| Publishing.CountedExactly | app/src/bridge_server.cpp:1172-1199 | The frames that count are exactly those at the positions where some unpaused client got or will get them, in order |
| Publishing.CountedAtMostOnce | app/src/bridge_server.cpp:1172-1199 | The counted frames are a subsequence of the frames of the cycle: none counts twice, however many clients got it |
| Publishing.UndeliveredNotCounted | app/src/bridge_server.cpp:1172-1199 | Nothing counts exactly when every frame was shed, or its clients were all gone or paused |
| Publishing.ForwardedUnlessNobodyGotIt | app/src/bridge_server.cpp:1181-1190 | A frame counts unless every client it was for was paused, shed it or was gone: queued counts like delivered |
| Publishing.CyclesCounted | app/src/bridge_server.cpp:1201-1206 | The cycle count is the number of cycles since the last snapshot that published something |
| Publishing.Publisher.RouteEverything | app/src/bridge_server.cpp:1124-1127 | An unlimited topic's messages all go to their lanes |
| Publishing.Publisher.RouteLimited | app/src/bridge_server.cpp:1128-1139 | The limiting loop routes exactly the admitted messages and ends with the last admitted timestamp |
| Publishing.Publisher.BuildLanes | app/src/bridge_server.cpp:1115-1140 | One limiter's cycle over all drained topics: both lanes and the new memory |
| Publishing.Publisher.ServeGroup | app/src/bridge_server.cpp:1072-1167 | One group: its frames, the representative's memory, and the copies to the members when something was admitted |
| Publishing.Publisher.CopyMemory | app/src/bridge_server.cpp:1146-1152 | All members of the group, and nobody else, get the memory |
| Publishing.Publisher.GroupClients | app/src/bridge_server.cpp:1026-1042 | The groups partition the clients that have subscriptions by their configuration |
| Publishing.Publisher.BuildFrames | app/src/bridge_server.cpp:1020-1169 | The whole cycle, groups in any order: every client's memory is the grouped one and the frames addressed to it are those it is due, in order |
| Publishing.Publisher.Publish | app/src/bridge_server.cpp:1008-1213 | One publish cycle calls the middleware for every unpaused client with exactly the frames that client is due, in order, and never for a paused one |
| Publishing.Publisher.SendOne | app/src/bridge_server.cpp:1172-1190 | The frame is offered to its unpaused clients in turn, and counts as forwarded exactly if one of them got it delivered or queued |
| Publishing.Publisher.SendAll | app/src/bridge_server.cpp:1171-1199 | The totals and per-topic counts are those of the forwarded frames |
| Publishing.Publisher.SendFrames | app/src/bridge_server.cpp:1171-1209 | Offers all frames in turn; the statistics grow by the forwarded ones, and the cycle counts only if there were any |
| Publishing.Publisher.SnapshotAndReset | app/src/bridge_server.cpp:994-1006 | Hands out and resets the counts, but not the lifetime message total |
| TopicWatching.NotificationsTrackTopics | app/src/bridge_server.cpp:794-883 | Over any run of polls, folding the notifications over the baseline gives the current name-to-type map, and nothing is sent exactly if nothing ever changed |
| TopicWatching.PatchOfDiff | app/src/bridge_server.cpp:819-842 | Applying a notification, removals first, turns the old map into the new one, type changes included; it is empty exactly if the maps agree |
| TopicWatching.ViewCatchesUp | app/src/bridge_server.cpp:242-295 | A client's own view, from a topic list it asked for between polls, becomes right with the next notification exactly if it is right about every topic the notification does not mention |
| TopicWatching.LateViewTracksTopics | app/src/bridge_server.cpp:794-883 | Such a view is right after every later poll as well |
| TopicWatching.ViewCanGoStale | app/src/bridge_server.cpp:819-842 | A topic listed between two polls and gone at the second is never removed from the view of the client that saw it |
| TopicWatching.TopicWatch.CheckTopicChanges | app/src/bridge_server.cpp:794-842 | The first poll is silent; later ones notify exactly when the whitelisted topics changed, naming just those that appeared, vanished or changed type; known are exactly the listed names that match the whitelist |
| TopicWatching.VisibleExactly | app/src/bridge_server.cpp:799-805 | Exactly the listed names that match the whitelist are advertised, each with the type listed last |
| TopicWatching.DiffIsMinimal | app/src/bridge_server.cpp:819-835 | A notification names just the topics that appeared, vanished or changed their type |
| TopicWatching.TopicWatch.Collect | app/src/bridge_server.cpp:799-805 | Collects the whitelisted topics, the last entry of a name winning |
| TopicWatching.TopicWatch.Changed | app/src/bridge_server.cpp:819-835 | Finds the entries that are missing or different on the other side |
| Backpressure.PushAccounts | app/include/pj_bridge/middleware/bounded_frame_queue.hpp:48-62 | A push splits old content and new frame into evicted oldest and kept newest, stays within the bound and counts its drops |
| Backpressure.BacklogKeepsNewest | app/include/pj_bridge/middleware/bounded_frame_queue.hpp:30-62 | After pushing the normal frames of any sequence the queue holds the newest frames that fit, in order, and counted every missing one |
| Backpressure.PolicyBounds | app/include/pj_bridge/middleware/backpressure.hpp:66-103 | Even if popping never runs dry at most `max_flush` frames are flushed, each below the watermark; heavy frames are never queued, normal ones never shed, and both happen only at or above the watermark |
| Backpressure.PolicyExactly | app/include/pj_bridge/middleware/backpressure.hpp:66-103 | For any answers of its callbacks the policy flushes until the bound, the watermark or an empty backlog stops it, then transmits below the watermark, sheds a heavy frame and queues a normal one, and reports the client gone exactly if a callback said so |
| Backpressure.CongestedCall | app/include/pj_bridge/middleware/backpressure.hpp:66-102 | A call that finds the socket congested throughout feeds it nothing |
| Backpressure.RunBackpressure | app/include/pj_bridge/middleware/backpressure.hpp:59-103 | The policy loop computes the policy function, for any answers of its callbacks |
| Backpressure.BoundedFrameQueue.PushFrame | app/include/pj_bridge/middleware/bounded_frame_queue.hpp:48-62 | Drops the oldest frame of a full queue, or the new one if nothing fits, and counts it |
| Backpressure.BoundedFrameQueue.PopFront | app/include/pj_bridge/middleware/bounded_frame_queue.hpp:65-72 | Removes and returns the oldest frame, leaving the drop count |
| Middleware.DiscardKeepsCount | app/src/middleware/websocket_middleware.cpp:141-145 | Discarding a backlog folds its drops: the reported count does not change |
| Middleware.EnqueueCounts | app/src/middleware/websocket_middleware.cpp:359-367 | Queueing raises the reported count by exactly the evicted frames, and not at all for a client that left |
| Middleware.WebSocketMiddleware.OnClose | app/src/middleware/websocket_middleware.cpp:138-147 | A disconnect drops client and backlog and keeps the reported count |
| Middleware.WebSocketMiddleware.DropPending | app/src/middleware/websocket_middleware.cpp:410-423 | Discards the backlog of a client that stays connected and keeps the reported count |
| Middleware.WebSocketMiddleware.Shutdown | app/src/middleware/websocket_middleware.cpp:247-255 | Folds every backlog's drops, forgets all clients and keeps the reported count |
| Middleware.WebSocketMiddleware.DroppedFrameCount | app/src/middleware/websocket_middleware.cpp:425-432 | The summing loop yields the folded drops plus those of the live backlogs, in whatever order |
| Middleware.WebSocketMiddleware.BeginSend | app/src/middleware/websocket_middleware.cpp:323-336 | Finds the client and bounds the flush by its backlog, or reports it gone |
| Middleware.WebSocketMiddleware.PopPending | app/src/middleware/websocket_middleware.cpp:340-347 | Takes the oldest frame of the client's backlog, if there is one |
| Middleware.WebSocketMiddleware.QueuePending | app/src/middleware/websocket_middleware.cpp:359-367 | Queues a normal frame unless the client has left meanwhile |
| Middleware.WebSocketMiddleware.CountShed | app/src/middleware/websocket_middleware.cpp:372-381 | Counts a shed frame unless the client has left meanwhile |
| SendProtocol.EveryFrameAccounted | app/src/middleware/websocket_middleware.cpp:305-423 | Over every interleaving, each submission of every frame is in exactly one place: wire, backlog, in flight, dropped as the oldest, shed, discarded with its backlog, or lost to a gone client |
| SendProtocol.BacklogsStayTidy | app/src/middleware/websocket_middleware.cpp:354-367 | In every run backlogs exist only for connected clients, stay within their bound and hold no heavy frame |
| SendProtocol.CountersExact | app/src/middleware/websocket_middleware.cpp:425-437 | In every run the reported drop count is the number of frames dropped as the oldest over all clients that ever were, and the shed count that of shed frames |
| SendProtocol.CountersGrow | app/src/middleware/websocket_middleware.cpp:425-437 | No step, folding included, lowers the reported counts |
| WireOrder.OrderedUnlessOvertaken | app/include/pj_bridge/middleware/backpressure.hpp:66-87 | Over every run of distinct frames, what is on a client's wire and can still reach it stays in submission order at every point exactly if no frame ever goes out while older ones wait in the backlog |
| WireOrder.WireOrderedExactly | app/include/pj_bridge/middleware/backpressure.hpp:71-87 | Over every run of distinct frames, the wire itself stays in submission order at every point exactly if no frame flushed from the backlog is older than one already on the wire |
| WireOrder.GuardedWireKeepsOrder | app/include/pj_bridge/middleware/backpressure.hpp:83-87 | If every last reading of a call finds no backlog or a full socket, each client's wire is a subsequence of its submissions in order, over any run with any other draining, disconnects and shutdown |
| WireOrder.SteadyIsGuarded | app/include/pj_bridge/middleware/backpressure.hpp:71-87 | Readings that never decrease within a call satisfy that guard |
| WireOrder.WireKeepsOrder | app/src/middleware/websocket_middleware.cpp:305-370 | If the readings of a client's socket never decrease within a call, its wire is a subsequence of its submissions in order, over any run with arbitrary draining between calls |
| WireOrder.OvertakingBreaksOrder | app/include/pj_bridge/middleware/backpressure.hpp:83-87 | At the last reading of a call the order survives exactly if the backlog is empty or the socket is still full; a drain in between lets the new frame overtake the backlog |
| WireOrder.FramesCanOvertake | app/include/pj_bridge/middleware/backpressure.hpp:71-87 | A concrete run in which three of four frames reach the wire in another order than submitted, because the socket drains between two readings of one call |
| Congestion.SocketNeverOvershoots | app/include/pj_bridge/middleware/backpressure.hpp:66-87 | Over any run, with any text responses and drains, the binary bytes a socket holds never exceed the watermark minus one plus the largest frame |
| Congestion.CongestedSendsQueue | app/src/middleware/websocket_middleware.cpp:305-381 | If a connected client's socket is congested whenever a send looks, any interleaved run of sends puts nothing on the wire and leaves the queue of pushing its normal frames one by one |
| Congestion.HeavyLeavesNoTrace | app/include/pj_bridge/middleware/backpressure.hpp:83-102 | While the socket stays congested, two runs from the same state that submit the same normal frames end with the same backlog, drop count and wire, however many heavy frames either submitted |
| Congestion.SameWithoutHeavy | app/include/pj_bridge/middleware/backpressure.hpp:89-102 | In particular the backlog and drop count are those of a run without the heavy frames |
| Congestion.CongestedBacklogIsNewest | app/include/pj_bridge/middleware/bounded_frame_queue.hpp:30-62 | While the socket stays congested, the backlog holds the newest of what it held and of the normal frames submitted since, and every missing frame was counted |
| Congestion.CongestedSendsHappen | app/src/middleware/websocket_middleware.cpp:305-381 | From every congested state with no send in flight, any sequence of frames can be sent to the end with the socket staying congested |
| SendProtocol.ResultTellsFate | app/src/middleware/websocket_middleware.cpp:369-407 | The result of a send is true: delivered frames are on the wire, queued ones in the backlog with the reported drops, shed ones heavy and counted, the others lost |
| SendProtocol.SubmitFindsClient | app/src/middleware/websocket_middleware.cpp:321-336 | A send to a connected client starts with a flush bounded by the backlog it sees; one to a missing client ends at once as gone, its frame lost and nothing else changed |
| SendProtocol.StepsFollowPolicy | app/src/middleware/websocket_middleware.cpp:369-370 | Stepping a send through any answers of socket and backlog ends with what the policy loop returns for them |
| SendProtocol.CallsTerminate | app/include/pj_bridge/middleware/backpressure.hpp:71-81 | Every step brings a send closer to its end, whatever the answers |
| SendProtocol.EventConserves | app/src/middleware/websocket_middleware.cpp:305-423 | Each single step moves frames between places without losing or duplicating one |
| WireOrder.EventKeepsOrder | app/src/middleware/websocket_middleware.cpp:305-423 | Each single step that does not overtake keeps wire, frame in hand, backlog and current frame in submission order |
| WireOrder.EventKeepsPhase | app/include/pj_bridge/middleware/backpressure.hpp:71-87 | With nondecreasing readings a call reaches its own frame only with an empty backlog or a full socket |
| SendProtocol.EventCounts | app/src/middleware/websocket_middleware.cpp:138-147 | Each single step moves the shared counters by exactly the frames it evicts or sheds |
| SchemaExtraction.ExpansionSucceeds | ros2/src/schema_extractor.cpp:70-196 | On every finite type graph, cyclic or not, expansion ends, and it succeeds exactly if the root and every type reachable from it are defined |
| SchemaExtraction.ExpansionIsComplete | ros2/src/schema_extractor.cpp:112-196 | On success there is exactly one section for each type reachable by at least one reference, the root included if it lies on a cycle |
| SchemaExtraction.DefinitionIsComplete | ros2/src/schema_extractor.cpp:37-68 | The answer for a type name is resolved exactly if the type and everything reachable from it are defined; its text then starts with the root's lines verbatim and in order, followed by exactly one section for each type reachable by a reference, each its name and all its lines verbatim, and nothing else |
| SchemaExtraction.ParsesThreeParts | ros2/src/schema_extractor.cpp:198-214 | Asking for package/msg/Name asks for the type package/Name, whatever the middle part is |
| SchemaExtraction.TooFewSlashes | ros2/src/schema_extractor.cpp:198-208 | A name with fewer than two slashes is malformed |
| SchemaExtraction.MalformedIsReported | ros2/src/schema_extractor.cpp:46-51 | Such a name is answered as malformed, not as unresolved |
| SchemaExtraction.RootSectionsInOrder | ros2/src/schema_extractor.cpp:121-193 | The sections of the types the root refers to come in the order of its lines, except for a leading header |
| SchemaExtraction.HeaderGoesLast | ros2/src/schema_extractor.cpp:178-183 | A leading standard header goes behind the file's other references, which keep their order; any other first reference stays |
| SchemaExtraction.BuildExplores | ros2/src/schema_extractor.cpp:121-193 | A successful call, for any types processed before, leaves everything it marked defined and explored and writes one section for each |
| SchemaExtraction.BuildReaches | ros2/src/schema_extractor.cpp:121-193 | Whatever a call marks is reachable, and a failing call has reached something undefined |
| SchemaExtraction.ScanFindsNew | ros2/src/schema_extractor.cpp:121-176 | Reading a file finds each reference not seen before exactly once and marks all of them |
| SchemaExtraction.HeaderLastReorders | ros2/src/schema_extractor.cpp:178-183 | Moving the header last neither loses nor repeats a type |
| SchemaExtraction.SchemaExtractor.LoadFile | ros2/src/schema_extractor.cpp:75-110 | The file cache never changes what a file contains, empty files included |
| SchemaExtraction.SchemaExtractor.WriteLines | ros2/src/schema_extractor.cpp:117-176 | The line loop copies the text and collects the new references |
| SchemaExtraction.SchemaExtractor.BuildRecursive | ros2/src/schema_extractor.cpp:70-196 | The recursion over shared set, stream and cache computes the traversal and appends exactly its sections |
| SchemaExtraction.SchemaExtractor.BuildNested | ros2/src/schema_extractor.cpp:185-193 | The loop over nested types stops at the first failure and otherwise appends all their sections |
| SchemaExtraction.SchemaExtractor.TryGetMessageDefinition | ros2/src/schema_extractor.cpp:37-68 | Whatever was asked before, the answer is the one computed afresh: definition, malformed name or unresolved type |
| FastDds.CountsAreBalance | fastdds/src/fastdds_subscription_manager.cpp:120-237 | For any number of interleaved threads an entry exists exactly while its count is positive, the count is successful subscribes minus successful unsubscribes, and the zero-count branch is never taken |
| FastDds.NothingLeaks | fastdds/src/fastdds_subscription_manager.cpp:183-237 | Every entity set ever created is in exactly one place: the map, one thread's hands, or closed exactly once |
| FastDds.ReachableInv | fastdds/src/fastdds_subscription_manager.cpp:120-237 | Counts and ownership are exact in every reachable state |
| FastDds.SubscriptionManager.SubscribeExisting | fastdds/src/fastdds_subscription_manager.cpp:121-130 | Phase one only counts up an existing entry |
| FastDds.SubscriptionManager.InsertCreated | fastdds/src/fastdds_subscription_manager.cpp:183-196 | Phase three inserts, or counts up and tells the loser of the race to discard its entities |
| FastDds.SubscriptionManager.UnsubscribeLocked | fastdds/src/fastdds_subscription_manager.cpp:207-229 | Counts down; at zero erases the entry and hands out its entities for closing |
| Serializing.RoundTrip | app/src/message_serializer.cpp:43-59 | Decoding the concatenated encodings returns the same list and consumes every byte exactly if every name is under 2^16 and every payload under 2^32 bytes |
| Serializing.EncodeLayout | app/src/message_serializer.cpp:43-59 | Byte by byte, for every message: name length modulo 2^16, the whole name, timestamp, payload length modulo 2^32 and that much payload, numbers least significant byte first |
| Serializing.HeaderLayout | app/src/message_serializer.cpp:70-87 | The header is the bytes of PJRB, then count, size and flags in four bytes each, least significant first |
| Serializing.TrailingByteIgnored | tests/integration/test_client.py:197-199 | A single byte after complete messages is ignored |
| Serializing.CutMessage | tests/integration/test_client.py:201-219 | A last message cut within its fields makes the decoder fail; one cut within its payload is accepted without the missing part |
| Serializing.DecodeWithTail | tests/integration/test_client.py:197-229 | Whatever bytes follow complete messages, these are decoded as they are |
| Serializing.OversizedNameIsLost | app/src/message_serializer.cpp:176-181 | A message with a name of 65536 bytes is not decoded back: the first message read, if any, has an empty name |
| Serializing.HeaderRoundTrip | app/src/message_serializer.cpp:70-92 | Magic and flags always survive; count and size are the true ones exactly if they fit in 32 bits |
| Serializing.FrameRoundTrip | tests/integration/test_client.py:249-285 | For a whole uncompressed frame the payload decodes to the messages, and the header's count and size are those of the decoded list and payload exactly if both fit in 32 bits |
| Serializing.LittleEndianReads | app/src/message_serializer.cpp:168-174 | A value that fits its field is read back from its bytes |
| Serializing.DecodedFits | tests/integration/test_client.py:194-229 | Whatever the bytes, every message the decoder yields fits its length fields |
| Serializing.AggregatedMessageSerializer.WriteLittleEndian | app/src/message_serializer.cpp:168-174 | The byte loop appends the low bytes, least significant first |
| Serializing.AggregatedMessageSerializer.SerializeMessage | app/src/message_serializer.cpp:43-59 | Appends one encoded message, with the truncating casts of the length fields, and counts it |
| Serializing.AggregatedMessageSerializer.Header | app/src/message_serializer.cpp:70-87 | The 16 uncompressed bytes with truncated count and size |
| Serializing.DeserializeAggregatedMessages | tests/integration/test_client.py:194-229 | The decoder's loop yields the decoded list, stops at a single trailing byte and fails on a short field |

## Left out

- Which sessions opted into topic notifications, and whether theirs carry schemas, only shows as flags of a session; addressing the notifications is one branch each.
- Publishing.GroupingRefinesAlone: configurations are fixed over the run and the members of a group start with agreeing limiter memories; the program keeps neither this nor a client's spacing across all group changes (JoinerBreaksSpacing), and AgreementIsExact and LeadingIsExact say when it does.
- GroupChanges.LeadingIsExact: for remembered timestamps at least 2 * 10^12 ns before the end of the 64-bit clock, so that another message can follow.
- GroupChanges.SpacingAcrossGroups: for timestamps of at most 2^64 - 1 - 10^12, where the limiter's addition does not wrap.
- Publishing.ForwardCountsConserved: cycles that throw half-way are not modelled, and only messages are counted, not bytes or received messages.
- WireOrder.GuardedWireKeepsOrder: needs last readings that find no backlog or a full socket, because the program does not keep the order otherwise; OrderedUnlessOvertaken and FramesCanOvertake say when and how.
- Congestion.SocketNeverOvershoots: bounds the bytes of binary frames in the socket; text responses share its buffer and are sent regardless of the watermark, so the program does not bound their part.
- SendProtocol.CallsTerminate: bounds the steps of one call; whether the socket library returns from its own calls is outside the model.
- RateLimiting.GreedyIsOptimal: for timestamps up to 2^64 - 1 minus the interval, where the unsigned addition does not wrap; AdmitsIsSpacing covers the rest.
- RateLimiting.ClampedRateUsable: rates are real numbers, so rounding of floating-point rates and their not-a-number values are not captured.
- SubscriptionManagement.AdaptDepth: without a known publisher the program does not clamp up to the minimum, and neither does the model; reliability and durability matching are left out.
- BridgeProtocol.SchemaBeforeData: handlers and publish cycles that throw are not modelled; schemas sent in earlier sessions of the connection count, and SessionHistory has the statements about the current session.
- FastDds.NothingLeaks: entity creation may fail but does not throw, and `unsubscribe_all` is not part of the machine; the RTI backend follows the same three phases and is not modelled.
- Serializing.RoundTrip: on the uncompressed payload; ZSTD compression is not modelled, topic names are bytes and UTF-8 decoding is left out.
- The event loop's critical sections are single steps: ingestion may land between any two steps, but not inside such a section. The disconnect callback's section is modelled topic by topic, with ingestion and lock-free handler steps in between.
- JSON parsing and printing, command dispatch, error codes, response status texts and capability lists: requests are a datatype, the whitelist is an arbitrary predicate.
- Discovery and the schema source are arbitrary: which topics exist, have a schema, and can be subscribed is a parameter of each section.
- Iteration orders of hash maps and of the groups are arbitrary parameters.
- Splitting definition lines into words, builtin type names and array suffixes: each line carries the type it refers to, if any.
- The schema caches are used by one thread at a time; their locks are not modelled.
- Sockets, TLS, the incoming request queue, shutdown timeouts, signal handling, command lines, logging and the throttling of warnings.
- Lifetime counters of the middleware are unbounded numbers instead of 64-bit words.
- A connection's identity is not reused while a send for its predecessor is in flight; the socket library numbers connections.
- `publish_data`, `get_session`, `get_latched`, `session_count`, buffer `size` and other plain getters: easy members.
