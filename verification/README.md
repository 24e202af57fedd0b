# Arctic RSS: models of its protocols and algorithms

Dafny models of the parts of Arctic RSS where several actors, timers or tables have to agree, with proofs of
what holds in every run. JavaScript between two `await`s is one atomic step; an `await` ends a step. Redis,
PostgreSQL, timers and the network are explicit state with steps of their own.

`dafny verify dfyconfig.toml` checks everything. No two files share a module.

| files | part of the system |
|---|---|
| `LeaseRedis`, `LeaseLocal`, `LeaseSystem`, `LeaseSafety`, `LeaseTiming` | The distributed maintenance lease: one Redis key, its three commands, any number of workers, crashes, lost replies, expiry |
| `Text`, `IrcProtocol`, `IrcSession` | IRC line codec (section 2.3.1 of RFC 2812) and the chunked CRLF framer over it |
| `Gateway`, `GatewayRuns` | Chat connection admission: three pending tables, two socket tables, counters |
| `NativeChat` | One chat socket: concurrent subscribe, unsubscribe and disconnect |
| `RedisRecovery`, `ControlPlane` | The two recovery supervisors and their give-up timers |
| `StoryRows`, `FailureMerge`, `ReadBatches` | Greedy story folding, the merge of two failure lists, batched read-marking |
| `Base64url`, `Handoff` | The signed account-deletion handoff string (base64url of section 5 of RFC 4648) |
| `AccountDeletion`, `AccountDeletionRuns` | E-mail confirmed account deletion over interleaved database transactions |
| `Schedule`, `Shutdown` | Retry backoff of maintenance passes, and worker shutdown |
| `Wrappers` | `Option` and `Result` |

How the models are built. Objects whose methods update fields are classes; each method's contract equates its
whole new state with a function of the old one. A system model is a set of events over those same functions:
`Enabled` says when an event may happen, `Apply` what it does, `Exec` folds a list of events. A theorem about
every run quantifies over all event lists from `INITIAL`, or over all reachable states.

Assumptions. Lease, reservation and confirmation tokens are fresh. A Redis key is gone from the instant it
expires. Redis executes a command at one instant between its sending and its reply, or later if the caller has
been told it failed. Row locks in PostgreSQL last to the end of the transaction; each statement sees committed
rows. The subject reference of a deletion record is an injective hash.

## What the code does and does not give

- `assertHeld` reads no clock, so passing it is not mutual exclusion: two workers may both pass
  (`LeaseSafety.AssertHeldIsNotExclusion`). A live lease really holds the key exactly while its last executed SET
  or renewal is younger than the ttl (`LiveLeaseHoldsExactly`), and with timely ticks and round trips that is
  always (`LeaseTiming.TimelyLeasesExclude`).
- The per-socket room limit is checked before two awaits, so concurrent subscribes pass it. The bound
  `maxRooms + maxOperations - 1` is kept by every interleaving and reached by one; the limit itself holds only with
  one operation at a time, or no rooms (`NativeChat.RoomLimitHoldsExactly`).
- A disconnect is not final: a subscribe in flight may still add its room and restart the heartbeat. Which ones can is read off
  the operations in flight at the disconnect (`NativeChat.DisconnectIsFinalExactly`).
- The split of an IRC stream into chunks is immaterial exactly when the session is closed, leftover and stream fit 8192 bytes,
  or only the last character overflows a buffer that holds no complete line (`IrcSession.SplitsAgreeExactly`).
- A PING is not answered when its echo does not fit a PONG line: then the PING is reported as a protocol error
  instead (`IrcSession.PingIsAnswered`).
- The Redis recovery supervisor may become ready after `close`; `RedisRecovery.ReadyAfterClose` says from which states. It
  never gives up after `close`.
- The pause phase of a worker shutdown has no deadline. A shutdown ends by its deadline, up to the lateness of one timer,
  exactly when the pauses do.

## Model

| member | source | states |
|---|---|---|
| LeaseRedis.ExecuteKeepsInv | worker/maintenance-lock.ts:13-24 | After any command the key equals what the log of past successes alone says, and every success in the log was legal: a SET only when the previous holder released or expired, a script only for the unexpired holder |
| LeaseRedis.HoldingsAreContiguous | worker/maintenance-lock.ts:13-24 | Between two successes of one token no other token succeeds, in any legal log with fresh tokens |
| LeaseRedis.RecentSuccessIsLast | worker/maintenance-lock.ts:13-24 | A token confirmed less than ttl ago and not released is still the last successful one |
| LeaseLocal.ActiveLease.LoseLease | worker/maintenance-lock.ts:122-134 | Only the first reason is kept; the abort flag agrees with it |
| LeaseLocal.ActiveLease.IntervalFired | worker/maintenance-lock.ts:298-310 | Sends a renewal exactly when none is in flight and the lease is neither lost nor releasing |
| LeaseLocal.ActiveLease.RenewalCompleted | worker/maintenance-lock.ts:147-168 | The renewal is over; a reply other than 1 loses ownership, a rejection loses by error, success changes nothing else |
| LeaseLocal.ActiveLease.BeginRelease | worker/maintenance-lock.ts:170-178 | A second release joins the first and changes nothing |
| LeaseLocal.ActiveLease.ResumeRelease | worker/maintenance-lock.ts:178-203 | The script is sent if and only if the lease was never lost or lost by shutdown |
| LeaseLocal.ActiveLease.AssertHeld | worker/maintenance-lock.ts:226-234 | Passes exactly when the connection is ready and the lease was never lost; an unready connection loses it |
| LeaseLocal.MaintenanceLock.Acquired | worker/maintenance-lock.ts:292-316 | The new lease is active; if the connection is gone it is lost and releasing before the operation starts |
| LeaseLocal.MaintenanceLock.OperationSettled | worker/maintenance-lock.ts:317-328 | A value is returned exactly when the operation did not throw, the connection is ready and the lease was never lost; release begins either way |
| LeaseLocal.MaintenanceLock.ConnectionChanged | worker/maintenance-lock.ts:238-245 | An unready state loses the active lease, unless the lock is closed |
| LeaseLocal.MaintenanceLock.BeginClose | worker/maintenance-lock.ts:248-254 | The active lease is lost for shutdown and begins its release |
| LeaseLocal.MaintenanceLock.Forget | worker/maintenance-lock.ts:216-220 | The lease is not active afterwards, any other active lease stays, and an open ready lock can start again |
| LeaseSystem.StepKeepsInv | worker/maintenance-lock.ts:142-329 | Every step of every worker, the network, Redis, a crash or time keeps: log and key agree, each executed command is in the log under its own token, confirmations point at successes, at most one SET and release a run |
| LeaseSafety.ConfirmedIntervalsDisjoint | worker/maintenance-lock.ts:279-312 | In every reachable state the confirmed holding intervals of two leases do not overlap, in the serial order and on the clock of Redis |
| LeaseSafety.AtMostOneRecentlyConfirmed | worker/maintenance-lock.ts:142-168 | Two live leases cannot both have been confirmed less than ttl ago; the one that was still owns the key |
| LeaseSafety.LiveLeaseHoldsExactly | worker/maintenance-lock.ts:226-234 | A live lease holds the key if and only if its last executed SET or renewal is younger than ttl |
| LeaseSafety.TokenNeverReturns | worker/maintenance-lock.ts:13-24 | A token that left the key after its SET never becomes visible again in any continuation |
| LeaseSafety.LostIsPermanent | worker/maintenance-lock.ts:122-134 | In any continuation a lost lease stays lost for the same reason and its operation never turns into a returned value |
| LeaseSafety.ValueMeansNeverLost | worker/maintenance-lock.ts:314-325 | In any run in which `run` returns a value, the operation settled at some step with the connection ready and the lease never lost in any state up to it |
| LeaseSafety.ReleaseIsTheLastCommand | worker/maintenance-lock.ts:170-224 | The release script is sent at most once a lease, never while a renewal is awaited, and nothing is sent for the lease after it |
| LeaseSafety.ReleaseIsSent | worker/maintenance-lock.ts:182-203 | When the release goes on it is sent for a lease never lost or lost by shutdown, and for no other |
| LeaseSafety.ExecutedReleaseFrees | worker/maintenance-lock.ts:19-24 | An executed release leaves the key free if the lease owns it, and else changes nothing |
| LeaseSafety.ReleaseFreesTheKey | worker/maintenance-lock.ts:170-224 | Sending and executing the release of an owning lease lets the next SET of any token succeed |
| LeaseSafety.NormalRunFreesTheKey | worker/maintenance-lock.ts:317-328 | From the end of an undisturbed operation, value returned, release sent and executed, the next worker can acquire |
| LeaseSafety.SetReplyDecides | worker/maintenance-lock.ts:279-312 | A granted SET makes the lease active with a full interval to its first tick; a refused or failed one ends the run and leaves the lock |
| LeaseSafety.TickSendsOrSkips | worker/maintenance-lock.ts:298-310 | A tick sends a renewal exactly for a lease not lost with none in flight, and the next comes an interval later |
| LeaseSafety.ToldSuccessIsConfirmed | worker/maintenance-lock.ts:147-163 | Every success a worker is told of, and nothing else, extends its confirmed interval |
| LeaseSafety.OperationEnds | worker/maintenance-lock.ts:314-328 | `run` throws if the operation throws, the lease is lost or the connection is gone, and returns the value otherwise |
| LeaseSafety.NoRunBeforeReady | worker/maintenance-lock.ts:267-277 | A worker whose connection never became ready starts nothing |
| LeaseSafety.ConnectionLossLoses | worker/maintenance-lock.ts:238-245 | An unready state loses the active lease of an open lock and touches no other lease |
| LeaseSafety.CloseLoses | worker/maintenance-lock.ts:248-254 | Closing loses the active lease for shutdown, begins its release and touches no other lease |
| LeaseSafety.ClosedBeginsNothing | worker/maintenance-lock.ts:248-277 | A closed lock stays closed and begins no run in any continuation |
| LeaseSafety.CrashedWorkersAreSilent | worker/maintenance-lock.ts:266-329 | After a crash nothing is ever sent for the runs of that worker |
| LeaseSafety.CrashedHolderExpires | worker/maintenance-lock.ts:282 | From any reachable state, after a crash and one ttl without commands the next SET succeeds |
| LeaseSafety.AssertHeldIsNotExclusion | worker/maintenance-lock.ts:226-234 | A reachable state in which the operations of two workers both pass `assertHeld` |
| LeaseTiming.KeyNeverExpiresUnderLiveLease | worker/maintenance-lock.ts:298-310 | With 2 round trips + interval + tick lateness at most ttl, the key is visibly the lease's while it is live, and no renewal is ever refused |
| LeaseTiming.ThirdOfTtlIsEnough | worker/maintenance-lock.ts:9-12 | With interval floor(ttl/3), punctual ticks and shorter round trips, a live lease holds the key although ticks are skipped while a renewal is in flight |
| LeaseTiming.TimelyLeasesExclude | worker/maintenance-lock.ts:226-236 | Under the timing hypothesis two live leases are the same lease |
| LeaseTiming.TimelyRunsExist | worker/maintenance-lock.ts:279-312 | For all periods that fit, some timely run acquires, renews and still holds a live lease |
| IrcProtocol.ParseIrcLine | services/external-irc/protocol.ts:19-70 | The loop computes the grammar: every error in the order of the checks, the same command, parameters, prefix and trailing text |
| IrcProtocol.ParseCursor | services/external-irc/protocol.ts:48-67 | The cursor loop equals the recursive reading of parameters and trailing text |
| IrcProtocol.ParseChecks | services/external-irc/protocol.ts:20-36 | Empty, CR, LF or over 510 bytes is an invalid line; else a colon without a later space, or with one at once, is an invalid prefix |
| IrcProtocol.PrefixedParses | services/external-irc/protocol.ts:29-39 | A prefix put before an accepted line is read back without its colon and changes nothing else |
| IrcProtocol.PrefixIsThere | services/external-irc/protocol.ts:32-39 | An accepted line has a prefix if and only if it starts with a colon, and then begins with colon, prefix and space |
| IrcProtocol.PrintedLineParses | services/external-irc/protocol.ts:41-69 | Printed lines of a three-digit or word command parse back to command, parameters and trailing text |
| IrcProtocol.OneWordLines | services/external-irc/protocol.ts:41-46 | A line of one visible word is its upper-cased command if it is three digits or a letter and up to fifteen letters or digits, else a command error |
| IrcProtocol.OneArgumentLines | services/external-irc/protocol.ts:48-67 | After any number of spaces one visible argument is trailing text, a parameter error or a parameter, by where its colon is |
| IrcProtocol.ParseEncoded | services/external-irc/protocol.ts:72-106 | Whatever encodes parses back to the upper-cased command, the same parameters and the same trailing text, absent and empty kept apart |
| IrcProtocol.EncodeParsed | services/external-irc/protocol.ts:19-106 | An accepted line re-encodes within 512 bytes if and only if its command is not numeric, and parses back to the same message without prefix |
| IrcProtocol.CommandsSent | services/external-irc/protocol.ts:81-85 | Of ASCII commands exactly a letter and at most fifteen letters or digits, in either case, are sent |
| IrcProtocol.ParametersSent | services/external-irc/protocol.ts:87-89 | Of visible ASCII text exactly the non-empty one without a colon is sent as a parameter |
| IrcProtocol.ParametersRefused | services/external-irc/protocol.ts:87-89 | An empty parameter, or one with white space, a line break or a colon, is a parameter error |
| IrcProtocol.WhiteSpaceListed | services/external-irc/protocol.ts:3 | White space is exactly the white space and line terminators of ECMAScript |
| IrcProtocol.SpecialUpperCases | services/external-irc/protocol.ts:81 | The letters outside ASCII whose upper case is ASCII, with it |
| IrcSession.Session.ReceiveChunk | services/external-irc/session.ts:65-95 | A chunk appends exactly the outputs of its complete lines in order and keeps the rest, or reports one overflow |
| IrcSession.Session.ReceiveLine | services/external-irc/session.ts:81-92 | An accepted line other than PING reports exactly its message, a rejected one exactly its own error |
| IrcSession.CloseIsLast | services/external-irc/session.ts:54-67 | Over any calls the first close reports itself once, after everything before it, and nothing is output after it |
| IrcSession.ReceiveAllKeepsFramed | services/external-irc/session.ts:65-95 | After any chunks the buffer holds no CRLF and at most 8192 bytes |
| IrcSession.ChunksAreWhole | services/external-irc/session.ts:65-95 | Any split of a stream that fits gives the outputs, order and leftover of the whole |
| IrcSession.SplitsAgree | services/external-irc/session.ts:65-95 | Two splits of one stream that fits cannot be told apart |
| IrcSession.SplitsAgreeExactly | services/external-irc/session.ts:71-75 | All splits agree with the whole if and only if the session is closed, everything fits, or only the last character overflows a buffer without a complete line |
| IrcSession.SplitMattersPastTheLimit | services/external-irc/session.ts:71-75 | A stream of 8193 bytes whose split changes what is kept |
| IrcSession.PingIsAnswered | services/external-irc/session.ts:83-85 | A PING is answered by a PONG that parses back to its echo exactly when the echo fits, else reported as too long |
| Gateway.ChatGateway.ReserveConnection | services/chat-gateway/gateway.ts:234-280 | Refused for the user if and only if pending plus active sockets of the user reach the limit, else for the address alike, else pending with this peer; all indexes stay projections |
| Gateway.ChatGateway.ReleasePendingAdmission | services/chat-gateway/gateway.ts:291-323 | Removes the reservation everywhere, once; a second release changes nothing |
| Gateway.ChatGateway.OnConnection | services/chat-gateway/gateway.ts:151-177 | A socket becomes active exactly by consuming its live reservation |
| Gateway.ChatGateway.OnDisconnect | services/chat-gateway/gateway.ts:178-196 | The socket leaves both indexes and the counter drops by exactly one, so the clamp never acts |
| Gateway.ChatGateway.DisconnectUser | services/chat-gateway/gateway.ts:359-372 | Exactly the user's active sockets leave, and their number is counted and returned |
| Gateway.ChatGateway.ReleaseAll | services/chat-gateway/gateway.ts:325-329 | Every pending reservation is released once for server shutdown; table and indexes end empty |
| Gateway.AddKeepsUserIndex | services/chat-gateway/gateway.ts:401-409 | Adding a token keeps the by-user index equal to the projection, no empty set |
| Gateway.RemoveKeepsUserIndex | services/chat-gateway/gateway.ts:411-422 | Removing a token keeps the by-user index equal to the projection, no empty set |
| Gateway.AddKeepsIpIndex | services/chat-gateway/gateway.ts:265-268 | The same for the by-IP index, untouched without an IP |
| Gateway.RemoveKeepsIpIndex | services/chat-gateway/gateway.ts:313-319 | The same for the by-IP index on removal |
| Gateway.EmptyTablesHaveEmptyIndexes | services/chat-gateway/gateway.ts:411-422 | With nothing pending both indexes are empty maps |
| GatewayRuns.EveryRunIsSafe | services/chat-gateway/gateway.ts:151-329 | In every run pending plus active sockets stay within both limits for every user and IP; reserved = released + pending; each active socket consumed a reservation of its own |
| GatewayRuns.LimitsAreReached | services/chat-gateway/gateway.ts:239-254 | For all limits some run has exactly as many sockets of one user as allowed, and some run as many of one address |
| GatewayRuns.AdmittedConnects | services/chat-gateway/gateway.ts:114-177 | A socket that is not refused passes the middleware and becomes active by its own reservation |
| GatewayRuns.StepKeepsInv | services/chat-gateway/gateway.ts:151-329 | Each event keeps limits, conservation, and the ownership of reservations by waiting sockets |
| GatewayRuns.SizesSumToActive | services/chat-gateway/gateway.ts:159-167 | The sizes of the per-user sets sum to the number of active sockets |
| NativeChat.ChatSocket.TryStartOperation | services/chat-gateway/abuse.ts:111-121 | Starts exactly below the limit |
| NativeChat.ChatSocket.StartHeartbeat | src/lib/chat/presence.ts:166-175 | On, whether or not it was |
| NativeChat.ChatSocket.StopHeartbeat | src/lib/chat/presence.ts:176-181 | Off, whether or not it was |
| NativeChat.ChatSocket.CommitSubscribe | services/chat-gateway/native-chat.ts:210-216 | The room is in; the heartbeat starts only for a new room |
| NativeChat.ChatSocket.CommitUnsubscribe | services/chat-gateway/native-chat.ts:116-124 | The room is out and every other room stays; the heartbeat stops exactly when it was the last one |
| NativeChat.ChatSocket.OnDisconnect | services/chat-gateway/native-chat.ts:148-151 | No rooms, no heartbeat |
| NativeChat.StepKeepsInv | services/chat-gateway/native-chat.ts:269-301 | Each step keeps: counter = operations in flight within the limit, heartbeat if and only if rooms |
| NativeChat.SubscribeIsChecked | services/chat-gateway/native-chat.ts:193-203 | Both checks of a subscribe let it on exactly if its room is subscribed or there is room |
| NativeChat.OthersAreNotChecked | services/chat-gateway/native-chat.ts:289-295 | A refusal of the limiter ends any operation; an allowed unsubscribe meets no room check |
| NativeChat.EveryInterleaving | services/chat-gateway/native-chat.ts:110-219 | Under every interleaving the counter is exact and bounded, the heartbeat runs exactly with rooms, and rooms subscribed or past the check number at most maxRooms + maxOperations - 1 |
| NativeChat.SerialOperationsKeepTheLimit | services/chat-gateway/native-chat.ts:192-216 | With one operation at a time the room limit is kept |
| NativeChat.DisconnectIsFinalExactly | services/chat-gateway/native-chat.ts:148-216 | After a disconnect, with no further request, some continuation brings rooms back if and only if a subscribe is past its checks, or is before them and rooms are allowed at all; otherwise rooms and heartbeat stay off for good |
| NativeChat.SubscribeOutlivesDisconnect | services/chat-gateway/native-chat.ts:192-216 | Any subscribe that the cleared room set lets through can still join and restart the heartbeat |
| NativeChat.QuietAfterDisconnect | services/chat-gateway/native-chat.ts:148-165 | With no such subscribe in flight every continuation without further requests stays without rooms and heartbeat |
| NativeChat.BoundIsReached | services/chat-gateway/abuse.ts:82-87 | For all positive limits some interleaving subscribes exactly maxRooms + maxOperations - 1 rooms |
| NativeChat.RoomLimitHoldsExactly | services/chat-gateway/abuse.ts:82-87 | Every run keeps the room limit if and only if at most one operation may be in flight or no room is allowed |
| RedisRecovery.RedisRecoverySupervisor.UpdateState | services/chat-gateway/redis-recovery.ts:111-135 | Ready exactly with all six connected and no resubscription running; a running watchdog keeps its deadline while not ready, lost readiness starts one full grace period, and readiness leaves none |
| RedisRecovery.RedisRecoverySupervisor.OnReady | services/chat-gateway/redis-recovery.ts:73-84 | Only adds the client; readiness and watchdog stay; who waits finds all six connected and a resubscription running |
| RedisRecovery.RedisRecoverySupervisor.MarkClientUnavailable | services/chat-gateway/redis-recovery.ts:92-99 | Unless closed nobody is connected and it is not ready; a running watchdog is not postponed, and one full grace period starts where readiness is lost |
| RedisRecovery.RedisRecoverySupervisor.FinishStart | services/chat-gateway/redis-recovery.ts:69-70 | Ready exactly if all six are still connected and no resubscription runs; ready events count from here on |
| RedisRecovery.RedisRecoverySupervisor.WatchdogFires | services/chat-gateway/redis-recovery.ts:126-130 | When it fires, readiness has been gone for a full grace period; it gives up exactly when not closed |
| RedisRecovery.ReadyMeansAllSix | services/chat-gateway/redis-recovery.ts:111-118 | Ready in any reachable state means all six clients are connected |
| RedisRecovery.GivesUpOnlyAfterGrace | services/chat-gateway/redis-recovery.ts:124-132 | The callback runs only after a full grace period without any ready instant, and never after close |
| RedisRecovery.FiringGivesUp | services/chat-gateway/redis-recovery.ts:126-130 | In every reachable state a watchdog that fires gives up, unless closed |
| RedisRecovery.FailuresDoNotPostpone | services/chat-gateway/redis-recovery.ts:92-135 | While readiness stays away no sequence of failures or failed resubscriptions moves the deadline, and the callback runs at most once |
| RedisRecovery.NeverAfterClose | services/chat-gateway/redis-recovery.ts:138-142 | No continuation after close gives up |
| RedisRecovery.ConnectedAreTheReported | services/chat-gateway/redis-recovery.ts:48-99 | After start `connected` is exactly the clients that reported ready since the latest unavailability or failed resubscription |
| RedisRecovery.StartMakesReady | services/chat-gateway/redis-recovery.ts:64-71 | A start whose resubscription succeeds ends ready and open to ready events |
| RedisRecovery.RecoversWithTheLastClient | services/chat-gateway/redis-recovery.ts:73-90 | When the last missing client reports and the resubscription succeeds, readiness is back and the watchdog gone |
| RedisRecovery.EarlyReadyIsIgnored | services/chat-gateway/redis-recovery.ts:50-54 | Ready events before the end of start change nothing |
| RedisRecovery.WaitersAreConserved | services/chat-gateway/redis-recovery.ts:83-109 | Each ready event that waits resumes once, with the outcome of the resubscription it waited for |
| RedisRecovery.ReconnectionsAreCounted | services/chat-gateway/redis-recovery.ts:58-61 | The reconnection count is the number of reconnecting events, also after close |
| RedisRecovery.ReadyAfterClose | services/chat-gateway/redis-recovery.ts:64-90 | A closed supervisor that is not ready becomes ready in some continuation if and only if start has not begun, or all six are connected and a resubscription has succeeded for someone or is awaited by someone |
| RedisRecovery.ReadyAfterCloseHappens | services/chat-gateway/redis-recovery.ts:64-71 | A run in which a closed supervisor becomes ready |
| ControlPlane.WorkerControlPlane.Transition | worker/control-plane-redis.ts:73-83 | Listeners hear a changed state once and an unchanged one not at all |
| ControlPlane.WorkerControlPlane.BecomeUnavailable | worker/control-plane-redis.ts:92-108 | Without a running timer one is armed for exactly a grace period from now, a running one is kept; nothing after close |
| ControlPlane.WorkerControlPlane.OnConnect | worker/control-plane-redis.ts:110-114 | Connected, but the grace timer keeps running |
| ControlPlane.WorkerControlPlane.OnReady | worker/control-plane-redis.ts:115-120 | Ready clears the grace timer; nothing after close |
| ControlPlane.WorkerControlPlane.OnReconnecting | worker/control-plane-redis.ts:121-126 | Listeners hear unavailable before reconnecting |
| ControlPlane.WorkerControlPlane.Close | worker/control-plane-redis.ts:136-143 | Closed once, timer cleared, listeners told once |
| ControlPlane.Clamp | worker/control-plane-redis.ts:181-187 | The value itself between 10 s and 10 min, and 60 s for any other |
| ControlPlane.ListenersFollow | worker/control-plane-redis.ts:73-83 | Over any sequence of states listeners never hear one twice in a row and end up knowing the current one |
| ControlPlane.ExpiresOnlyAfterGrace | worker/control-plane-redis.ts:92-108 | The callback runs only after a full grace period without readiness and never after close |
| ControlPlane.FiringExpires | worker/control-plane-redis.ts:102-107 | In every reachable state a timer that fires runs the callback, once |
| ControlPlane.ReadyIsTheLastWord | worker/control-plane-redis.ts:110-150 | The plane is ready if and only if ready was the last change of state and nobody closed it |
| ControlPlane.FailuresDoNotPostpone | worker/control-plane-redis.ts:97-100 | Repeated failures and reconnections leave the deadline where it is |
| ControlPlane.NeverAfterClose | worker/control-plane-redis.ts:136-143 | No continuation after close expires |
| StoryRows.StoryClusterListRows | src/components/reader-surface.tsx:527-578 | The loops compute the declarative fold over sorted candidates |
| StoryRows.AbsorbCandidates | src/components/reader-surface.tsx:552-567 | The loop over candidates collects exactly the hidden ids and row clusters of the greedy fold |
| StoryRows.CollectRows | src/components/reader-surface.tsx:569-577 | The closing pass yields one row for every article that is a row article or not hidden, in order |
| StoryRows.DistinctExactly | src/components/reader-surface.tsx:535-537 | The hypothesis on pages is that no id is listed twice |
| StoryRows.SortedByPage | src/components/reader-surface.tsx:546-551 | On a page of distinct ids candidates are ordered by the page index of their first article, larger ones first where it is shared |
| StoryRows.SortKeepsAll | src/components/reader-surface.tsx:546-551 | No candidate is lost or duplicated by sorting |
| StoryRows.FoldConserves | src/components/reader-surface.tsx:555-577 | Rows are a subsequence of the page; groups are disjoint with at least two members in page order; each shows its cluster on its first article; rows = articles - sum of (size - 1) |
| StoryRows.MissingArticleIsAbsorbed | src/components/reader-surface.tsx:569-577 | An article without a row is in exactly one group, whose row is the group's earliest article |
| StoryRows.NoClusterLeftOver | src/components/reader-surface.tsx:555-562 | No cluster, shown or skipped, keeps two unabsorbed articles |
| StoryRows.FirstGroupIsBest | src/components/reader-surface.tsx:546-567 | The first group is a whole cluster, and no other with two articles starts higher on the page, or at the same article with more |
| StoryRows.EveryGroupIsBest | src/components/reader-surface.tsx:555-567 | Every group takes all that earlier ones left of its cluster, and no cluster that still had two articles left starts higher on the page, or at the same article with more |
| FailureMerge.MergedTimesAreGlobal | src/lib/admin-dashboard.ts:1248-1323 | Administrators only; for any answers the database may give among equal times, the merged list has the times of sorting both whole tables and cutting to 25 |
| FailureMerge.MatchingExactly | src/lib/admin-dashboard.ts:1276-1279 | The queried rows are exactly the failed ones updated from the start of the range and before its end |
| FailureMerge.MergedRowsAreAnswered | src/lib/admin-dashboard.ts:1303-1322 | Every shown row comes from an answer, none twice, and as many as there are up to 25 |
| FailureMerge.ShownRowsAreOfTheirSource | src/lib/admin-dashboard.ts:1303-1318 | Each shown row equals, field by field, one answered row of the source it names |
| FailureMerge.TopIsUnique | src/lib/admin-dashboard.ts:1318-1322 | The k newest times of a multiset are one sequence |
| FailureMerge.TopOfTops | src/lib/admin-dashboard.ts:1260-1322 | The top k of two top-k lists is the top k of the union |
| ReadBatches.WriteArticleReadStateBatches | src/lib/article-read-batch.ts:34-79 | The batches refine one simultaneous update, issue exactly the expected statements and count the distinct ids |
| ReadBatches.Unique | src/lib/article-read-batch.ts:47 | The same ids, each once, in the order of their first occurrence |
| ReadBatches.BoundedSize | src/lib/article-read-batch.ts:48 | The size without its fraction, and 1 for anything smaller, so the loop advances |
| ReadBatches.BatchesMarkAll | src/lib/article-read-batch.ts:50-74 | Any batch size gives the same table as marking all at once |
| ReadBatches.MarkAllIsExact | src/lib/article-read-batch.ts:53-73 | Exactly the requested rows of the user become read at the given time; every other row and column stays |
| ReadBatches.RerunAfterOneStop | src/lib/article-read-batch.ts:29-33 | Stopping after any prefix of the writes and rerunning, even with another batch size and time, gives the uninterrupted result |
| ReadBatches.RerunAfterStops | src/lib/article-read-batch.ts:29-33 | The same after any number of partial runs |
| ReadBatches.WriteCount | src/lib/article-read-batch.ts:50-74 | Two writes for each of ceil(n/b) batches |
| ReadBatches.WritesComeInPairs | src/lib/article-read-batch.ts:50-73 | The k-th batch is created first and then updated, with the next ids in order |
| Base64url.StrictDecodesExactlyEncodings | src/lib/account-deletion-handoff.ts:201-212 | A segment decodes to bytes b if and only if b is non-empty and the segment is its encoding |
| Handoff.CreatedFits | src/lib/account-deletion-handoff.ts:51-69 | Every created handoff has at most 216 bytes, a payload segment of at most 134 characters, and parses as v2 |
| Handoff.CreatedExactly | src/lib/account-deletion-handoff.ts:55-63 | A handoff is created exactly with a secret of 32 bytes, a hash of 64 lower-case hexadecimal digits and an expiry second after now |
| Handoff.CreatedIsCarrier | src/lib/account-deletion-handoff.ts:65-68 | What is created is the spelled-out v2 carrier of the payload JSON |
| Handoff.CreatedVerifies | src/lib/account-deletion-handoff.ts:71-98 | A created handoff verifies to its payload exactly while the current second is before its expiry, if JSON parsing inverts printing for the expiries a Date can hold |
| Handoff.ParsedReprints | src/lib/account-deletion-handoff.ts:159-184 | Every accepted string is the print of its own parsed parts |
| Handoff.AcceptedExactly | src/lib/account-deletion-handoff.ts:71-98 | A string verifies to p if and only if it is the one carrier of payload bytes that parse to p, valid, timely and short enough |
| Handoff.ShortSecretsRefused | src/lib/account-deletion-handoff.ts:151-157 | Verification fails for the secret exactly if it has fewer than 32 bytes |
| Handoff.DecimalIsNumber | src/lib/account-deletion-handoff.ts:65 | The printed expiry reads back as its number |
| Handoff.ParsesPrintedIsPossible | src/lib/account-deletion-handoff.ts:65-66 | Payloads print injectively, so a platform as assumed exists for any authentication codes |
| AccountDeletion.Database.Request | src/lib/account-deletion.ts:250-284 | Succeeds exactly for an active account without password and with a verified address; then its unused tokens are used and one new one, good for 15 minutes, is added; a failure changes nothing |
| AccountDeletion.RequestedTokenConfirms | src/lib/account-deletion.ts:275-283 | A requested token confirms exactly its own account and exactly until 15 minutes after the request |
| AccountDeletion.OlderTokensDoNotConfirm | src/lib/account-deletion.ts:271-274 | After a request no older token of the account confirms anything |
| AccountDeletion.Database.BurnToken | src/lib/account-deletion.ts:297-305 | The token of the unsent e-mail can never again be confirmed by anyone, and every other token as before |
| AccountDeletion.Database.DeleteInTransaction | src/lib/account-deletion.ts:181-212 | Succeeds exactly at the expected version; then user and tokens are gone, the record is completed now and requested when it first was, and all else stays |
| AccountDeletion.Database.Confirm | src/lib/account-deletion.ts:369-443 | Deletes exactly for an unused, unexpired token of that user at the version of an active Google-only account; the record is requested at the creation of the token and completed now; a failure changes nothing |
| AccountDeletionRuns.StepKeepsInv | src/lib/account-deletion.ts:250-443 | Each statement of each open transaction keeps tokens, locks, what other transactions rely on, and the deletion history consistent |
| AccountDeletionRuns.EveryRunKeepsThePromises | src/lib/account-deletion.ts:250-443 | In every run a user has at most one unused token, each token deletes at most one account and only as issued, and records exist exactly for users that signed up and are gone |
| AccountDeletionRuns.RecordsCarryTheTimes | src/lib/account-deletion.ts:196-205 | In every run the record of a deleted account is completed at its deletion and, if a token deleted it, requested when that token was created |
| AccountDeletionRuns.AccountsGoOnlyAsExpected | src/lib/account-deletion.ts:206-211 | An account disappears only at the version its deletion expected, which for a confirmation is the version of its unused token |
| AccountDeletionRuns.ClaimRechecks | src/lib/account-deletion.ts:412-434 | A read confirmation goes on exactly if the token is still unused and in time and the account still active, Google-only and at that version |
| AccountDeletionRuns.FailedEmailSpends | src/lib/account-deletion.ts:297-305 | A failed e-mail spends its token and touches no other row |
| AccountDeletionRuns.SpentTokensDeleteNothing | src/lib/account-deletion.ts:271-301 | After a use, a newer request or a failed e-mail no continuation deletes anything by that token |
| AccountDeletionRuns.AloneConfirmIsOneDeletion | src/lib/account-deletion.ts:376-443 | Undisturbed, the statements of a confirmation add up to one deletion exactly when the token is confirmable |
| AccountDeletionRuns.AloneRequestIsOneReplacement | src/lib/account-deletion.ts:250-284 | Undisturbed, the statements of a request add up to one replacement of the user's unused tokens |
| Schedule.MaintenanceSchedule.constructor | worker/maintenance-schedule.ts:18-36 | Settings are sound for whatever numbers are passed, and the schedule is due at once |
| Schedule.MaintenanceSchedule.RecordFailure | worker/maintenance-schedule.ts:47-56 | The next attempt is between base and maximum away, and no nearer than after the failure before |
| Schedule.AgeSinceLastSuccess | worker/maintenance-schedule.ts:65-72 | After any history the age counts from the last recorded success, never negative, and is absent without one |
| Schedule.RunIfDue | worker/index.ts:1204-1246 | A pass runs exactly when due, and its outcome is recorded |
| Schedule.DuePassesStart | worker/index.ts:1205-1207 | A pass due at its turn starts then; one that is not due does not |
| Schedule.ConfigureIsSound | worker/maintenance-schedule.ts:18-36 | Delays are positive and ordered for every input, also NaN and infinities; unset ones stay within 1 and 15 minutes |
| Schedule.ConfigureKeepsWholeNumbers | worker/maintenance-schedule.ts:33-35 | Whole positive settings are kept, the maximum raised to the base |
| Schedule.DefaultSettings | worker/maintenance-schedule.ts:18-27 | Unset delays of a whole interval: base half of it between 1 s and 1 min, maximum the interval between the base and 15 min |
| Schedule.UnboundedIntervals | worker/maintenance-schedule.ts:18-36 | What NaN and infinite intervals become |
| Schedule.MaximumFollowsBase | worker/maintenance-schedule.ts:24-27 | Without a maximum it is the larger of base and interval, at most 15 minutes, never below the base |
| Schedule.InfinitiesCompare | worker/maintenance-schedule.ts:20-27 | Minimum and maximum order infinities around numbers and are nothing without a number |
| Schedule.DelaysAreRounded | worker/maintenance-schedule.ts:75-77 | A delay is the nearest millisecond, halves up, and at least one |
| Schedule.CapIsInvisible | worker/maintenance-schedule.ts:49-53 | The exponent cap changes no delay if and only if thirty doublings of the base reach the maximum |
| Schedule.DefaultDelays | worker/maintenance-schedule.ts:20-27 | With unset delays the k-th failure in a row waits base * 2^(k-1), at most the maximum |
| Schedule.DelaysGrow | worker/maintenance-schedule.ts:49-53 | Delays never shrink between failures, at most double, and stay between base and maximum |
| Schedule.HistoryDecides | worker/maintenance-schedule.ts:42-63 | After any history the count is the number of failures not followed by a success, and the wait follows from it and the last record |
| Schedule.FewRunsInAnyWindow | worker/index.ts:1204-1246 | A driver that asks first starts at most 1 + W / min(retryBase, normalInterval) passes in any window W |
| Shutdown.BoundedTimeout | worker/shutdown.ts:67-70 | The value itself between 1 s and 2 min, and the nearer end for any other |
| Shutdown.Runtime.Settle | worker/shutdown.ts:167-187 | The race ends and succeeds as the settlement times and the deadline say |
| Shutdown.Runtime.Drain | worker/shutdown.ts:189-206 | The loop terminates; it succeeds exactly when no job is active at its end and fails only at or past the deadline |
| Shutdown.DrainNoticesSoon | worker/shutdown.ts:196-205 | The drain ends at most one poll and its lateness after the jobs are done, in success if that is by the deadline |
| Shutdown.DrainWaitsAnInterval | worker/shutdown.ts:202 | It does not look again before a whole interval or the deadline |
| Shutdown.Runtime.Shutdown | worker/shutdown.ts:44-130 | The phases, calls and outcome as functions of the environment, with the jobs active at the end; it never returns if a pause never settles |
| Shutdown.AllSettledMeans | worker/shutdown.ts:177-179 | All settled waits for the slowest, never ends if one never does, and is fulfilled exactly when all are |
| Shutdown.SettlingTies | worker/shutdown.ts:186 | At a tie the phase succeeds exactly if all are fulfilled and the timer is not served first |
| Shutdown.ReturnsWhenPausesSettle | worker/shutdown.ts:81-83 | The shutdown returns if and only if every pause settles |
| Shutdown.OnlyPausesOutlastTheDeadline | worker/shutdown.ts:81-119 | After the pauses no phase outlasts the deadline by more than one timer's lateness; the whole meets it exactly when the pauses do |
| Shutdown.UnforcedMeansAllSucceeded | worker/shutdown.ts:84-120 | Unforced implies every pause, pending work, drain, graceful close, resource closing and disconnect succeeded in time |
| Shutdown.ForcedClosesAreAwaited | worker/shutdown.ts:97-102 | A forced close phase that succeeds has every forced close fulfilled in time |
| Shutdown.TimelySuccessIsUnforced | worker/shutdown.ts:84-120 | When every phase succeeds before the deadline the shutdown is unforced |
| Shutdown.EachWorkerIsClosedOnce | worker/shutdown.ts:87-119 | Each worker is paused once and closed once, with force exactly when an earlier phase failed; resources close next, the database last |

## Left out

- Lease: a supplied client without `isReady` (always ready), logging and durations, `controlPlane.close` and `client.quit` at the end of `close`; a key counts as absent from the instant it expires.
- IRC: `redactIrcLine`, `start`, `join`, `sendChannelMessage`, the normalizers and reconnect helpers; each is a check or a call of the encoder.
- IRC text is a sequence of Unicode characters; ill-formed UTF-16 and an `onEvent` callback that calls back into the session are not modelled.
- IrcProtocol.ParseIrcLine: `toUpperCase` is modelled where its result can be an ASCII command; any other character is rejected either way.
- Gateway: authentication, origin and rate checks before the reservation, `revalidateStaleSockets`, age metrics, HTTP and socket transport.
- GatewayRuns: the ttl of a pending admission; its release may come at any time. `DisconnectUser` and `ReleaseAll` are sequences of single events there.
- Native chat: requests after a disconnect (the transport delivers none), payload parsing, presence and message services, the malformed-event counter. A slug and a room id are values of one set; the heartbeat is on or off.
- RedisRecovery.RedisRecoverySupervisor.UpdateState: does not model the `onStateChange` notification; `start` happens once.
- Control plane: reconnect delays with jitter; a fractional grace period (it falls back to the default).
- Story rows: presentation fields of articles and clusters.
- Failure merge: the fallback text of `boundedMessage`; the `where` clause is a half-open range of times.
- Read batches: a batch size that is not a finite number.
- Handoff: the two authentication codes and JSON parsing are parameters; cookie building and reading are not modelled.
- Account deletion: password accounts, sending mail, hashing, the token purpose and its clean-up, and bookkeeping columns. `SignsUp` is a completed sign-up: one that is withdrawn because its verification mail fails deletes the new user without a record. A request that waits for locks is one step that happens when they are free.
- Schedule: fractional clock values; sums of times are exact.
- Shutdown: signal handlers, logging, a timeout that is not a whole number, operations that throw before returning a promise. Code between waits takes no time.
- User interface, search, feeds, podcasts, digests, queues, mail and static data: outside these models.
