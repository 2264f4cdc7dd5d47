# Verification of the go-chat-system core

This project models the parts of the chat system whose behaviour spans many
steps, and proves what every run of them keeps.

- **The WebSocket hub** (`HubModel`, `HubInvariants`, `HubRuns`, `HubPresence`,
  `HubOutcomes`, `HubOrder`, `WebSocketHub`): the table of connections, one send channel of 256 messages per
  connection, rooms, presence, eviction of slow connections, the persist, deliver,
  acknowledge sequence, and the two ways a channel operation could panic, of which
  only the second close can happen.
- **The store** (`Store`, `StoreInvariants`, `Answers`, `Interleaving`, `StaleReads`,
  `StaleMessages`, `Lifecycle`, `Database`): friends, blocks, friend requests and
  messages, once with atomic service calls and once with the SQL statements of
  concurrent calls interleaved.
- **Hub and store together** (`System`, `Concurrent`): what reaches a connection was
  stored among unblocked mutual friends; again with atomic calls and with statements
  interleaved.
- **Two rate limiters** (`SlidingWindow`, `AdmissionRule`, `FixedWindow`).
- **The single-flight token refresh** of the web client (`TokenRefresh`,
  `TokenOutcomes`).
- **History** (`Chronology`, `Paging`): the chat page's merge, and offset paging
  while the table grows.

Each component has a specification, written as functions on values, and, where
the program changes state in place, classes and methods that are proved to do
what the specification says. Theorems about runs are stated over every sequence of
steps that the environment allows. Go map iteration is a nondeterministic choice in
the methods of `WebSocketHub.Hub`, so their postconditions hold for every order.

What the model takes for granted:

- A SQL statement is one atomic step, and so is a transaction (`BlockUser`,
  `AcceptRequest`). PostgreSQL's default isolation is weaker for two overlapping
  transactions. Tables start empty.
- Ids drawn by the UUID generator for friend requests are new. For messages this is
  not assumed: a repeated id fails the insert.
- A connection is registered before its pumps start, and its read pump hands in at
  most one unregister. A panic ends the process.
- Clocks do not run backwards, and Redis and the server share one clock.
- A user id has one spelling. The service and the hub compare ids as text, while the
  UUID columns ignore the case of letters.
- axios keeps the `_retry` flag of a request configuration when it is sent again.
- The locale's collation is a total order on message ids.

Where code and documentation differ, the model follows the code:

- `docs/CODEBASE.md:212` says that `user_online` goes out on a user's first
  connection; it goes out on every registration (`HubRuns.OnlineOnEveryJoin`).
- Evicting a slow connection is documented as its removal
  (`docs/CODEBASE.md:217-219`). The hub panics when the evicted connection's read pump
  ends (`HubRuns.ChannelSafety`, `HubRuns.EvictionIsFatal`, `HubRuns.PanicIsReachable`).
- `docs/CODEBASE.md:212-213` says that `user_offline` goes out after a user's last
  connection closes. An eviction leaves the user's table entry behind, empty, and
  announces nothing (`HubPresence.OnlineWithoutConnection`).

Some properties that one might expect are false of the code. Each has a concrete
run that breaks it, and a theorem that says for all runs when it holds:

- When calls interleave, a pair can have two live requests (`StaleReads.TwoLiveRequests`):
  exactly when an `INSERT` adds a request for a pair that are friends by then
  (`StaleReads.OneLiveThroughoutIff`).
- A blocked pair can have a live request (`StaleReads.RequestWhileBlocked`): exactly when
  an `INSERT` adds a request for a pair that is blocked by then
  (`StaleReads.BlocksSeverThroughoutIff`).
- A blocked pair can become friends (`StaleReads.FriendsWhileBlocked`): exactly when the
  receiver accepts a pending request of a blocked pair, which `AcceptRequest` never checks
  (`StaleReads.BlockedNotFriendsThroughoutIff`).
- A direct message can be stored for a blocked pair (`StaleMessages.MessageStoredWhileBlocked`):
  exactly when the two checks, repeated at the `INSERT`, would not both pass
  (`StaleMessages.RowsAmongFriendsIff`); never unless one of the two blocks the other
  between the block check and the `INSERT` (`StaleMessages.SoundWithoutBlock`).
- A user can stay announced online without any connection
  (`HubPresence.OnlineWithoutConnection`): exactly when some pass over the table is
  addressed to the user and finds all of the user's listed connections full
  (`HubPresence.PresenceRightThroughoutIff`).
- Offset paging can skip a row while nothing is added (`Paging.TiedRowsSkip`): it never
  does, whatever the page size and the database's choice among equal rows, if and only if
  the rows have distinct instants (`Paging.NeverSkipsIff`).
- The sliding window counts whole clock seconds. In wall-clock time up to twice the limit
  can pass within one window, and no more (`SlidingWindow.TwiceTheLimitAttained`,
  `SlidingWindow.WallClockBound`); the limit itself holds in exactly the intervals of at
  most window - 1 seconds and one millisecond (`SlidingWindow.LimitHoldsIff`).

## Model

| member | source | states |
|---|---|---|
| StoreInvariants.WriteKeepsStructure | migrations/20260126104003_initial_schema.sql:42-61 | No single statement or transaction breaks: friends is the symmetric closure of the accepted requests, nobody requests themselves, and an unordered pair has at most one pending request |
| StoreInvariants.OneLiveIff | internal/repository/friend_request_repo.go:31-47 | Given one live request per pair, a write keeps it if and only if it is not an INSERT that adds a row for a pair that are friends |
| StoreInvariants.BlocksSeverIff | internal/repository/friend_request_repo.go:31-47 | Given that blocked pairs have neither friendship nor live request, a write keeps it if and only if it is not an INSERT that adds a row for a blocked pair |
| StoreInvariants.BlockedNotFriendsIff | internal/repository/friend_request_repo.go:103-152 | Given that blocked pairs are not friends, a write keeps it if and only if it is not the receiver's accept of a pending request of a blocked pair |
| StoreInvariants.WriteKeepsConsistencyIff | internal/repository/friend_request_repo.go:31-47 | From fully consistent tables a write leaves them fully consistent, all properties at once, if and only if it is not an INSERT that adds a row for a pair that are friends or blocked |
| StoreInvariants.CallsKeepConsistency | internal/service/friend_request_service.go:58-107 | Every sequence of atomic service calls from empty tables leaves them fully consistent |
| StoreInvariants.FriendshipIsMutual | internal/repository/friends_repo.go:36-46 | The one-directional friendship lookup is sound: friendship is symmetric and irreflexive |
| StoreInvariants.RequestCreatedIff | internal/service/friend_request_service.go:58-107 | A request is created exactly when the users differ, neither blocked the other and no request between them is live; exactly one pending row is added, otherwise nothing changes |
| StoreInvariants.CancelUndoesCreate | internal/repository/friend_request_repo.go:74-86 | Cancelling right after creating restores the tables |
| StoreInvariants.UnblockDoesNotRestore | internal/repository/blocks_repo.go:38-95 | After block and unblock the friendship is gone and the pair's requests are all blocked; the pair can start again exactly when no reverse block is left |
| StoreInvariants.MessageStoredIff | internal/service/message_service.go:34-77 | A direct message is stored exactly when its trimmed text is not blank, its id is new and the two are friends, the block check being implied; the stored row carries the trimmed text and nothing else changes |
| Text.TrimIsUnique | internal/service/message_service.go:35 | The stored body is the one and only text obtained by cutting white space off both ends until none is left |
| Text.WhiteSpaceIs | internal/service/message_service.go:35 | What counts as white space, code point by code point |
| Answers.CreateRequestAnswers | internal/service/friend_request_service.go:58-107 | Which answer a friend request gets and when, each error if and only if its cause; on success exactly the one pending row is added |
| Answers.InsertAnswers | internal/repository/friend_request_repo.go:31-47 | The INSERT among other statements: silent when a request is pending either way, refused on a taken id or a request to oneself, otherwise exactly the one row |
| Answers.AcceptAnswers | internal/repository/friend_request_repo.go:103-152 | Accepting succeeds if and only if the caller is the receiver of a pending request of somebody else; then exactly that row and that friendship change; otherwise nothing does, and the error tells why |
| Answers.RejectAnswers | internal/repository/friend_request_repo.go:88-101 | Rejecting succeeds if and only if the caller is the receiver of a pending request; otherwise nothing changes |
| Answers.CancelAnswers | internal/repository/friend_request_repo.go:74-86 | Cancelling succeeds if and only if the caller is the sender of a pending request, which is then gone; otherwise nothing changes |
| Answers.BlockAnswers | internal/repository/blocks_repo.go:38-81 | Blocking succeeds if and only if it is somebody else; it adds that block, ends that friendship both ways, and marks exactly the requests between the two |
| Answers.UnblockAnswers | internal/repository/blocks_repo.go:83-95 | Unblocking succeeds if and only if the caller had blocked the target, and takes back that one block only |
| Answers.CreateMessageAnswers | internal/service/message_service.go:34-77 | Which answer a direct or group message gets and when, each error if and only if its cause; on success exactly the one row is appended |
| Interleaving.AloneIsAtomic | internal/service/friend_request_service.go:62-105 | The statements of a call, run without interference, do what the atomic call does |
| Interleaving.StructureSurvivesInterleaving | internal/repository/friend_request_repo.go:103-152 | Under every interleaving of concurrent calls' statements, friendship stays mutual, irreflexive and equal to the accepted requests, with one pending request per pair |
| StaleReads.OneLiveThroughoutIff | internal/service/friend_request_service.go:62-105 | A schedule keeps one live request per pair throughout if and only if no INSERT adds a row for a pair that are friends by then |
| StaleReads.BlocksSeverThroughoutIff | internal/service/friend_request_service.go:89-105 | A schedule keeps blocked pairs without friendship and live request throughout if and only if no INSERT adds a row for a pair blocked by then |
| StaleReads.BlockedNotFriendsThroughoutIff | internal/repository/friend_request_repo.go:103-152 | A schedule never makes a blocked pair friends if and only if nobody accepts a pending request of a blocked pair |
| StaleReads.ConsistentIffNoStaleInsert | internal/service/friend_request_service.go:62-105 | A schedule is fully consistent throughout, all properties at once, if and only if every INSERT that adds a row finds the pair neither friends nor blocked |
| StaleReads.BlockedAcceptNeedsStaleInsert | internal/repository/blocks_repo.go:69-75 | A blocked pair's request can be accepted only after an INSERT that found the pair blocked |
| StaleReads.RequestsWereCleared | internal/service/friend_request_service.go:62-105 | In every schedule, whoever inserted a request had found, in this order, the two not friends, nothing pending either way, and no block; and nothing was pending at the INSERT |
| StaleReads.RequestWhileBlocked | internal/service/friend_request_service.go:89-105 | A schedule that ends with a pending request of a blocked pair, and nothing else broken; every schedule to that state has such an INSERT |
| StaleReads.FriendsWhileBlocked | internal/repository/friend_request_repo.go:103-152 | A schedule that ends with two users friends although one blocked the other; every schedule to that state accepts a blocked pair's request |
| StaleReads.TwoLiveRequests | internal/repository/friend_request_repo.go:33-45 | A schedule that ends with an accepted and a pending request of one pair; every schedule to that state inserts a request for friends |
| StaleMessages.RowsWereChecked | internal/service/message_service.go:45-73 | In every schedule, whoever inserted a direct row had found no block between its users, and at a later moment that they were friends |
| StaleMessages.SoundWithoutBlock | internal/service/message_service.go:45-73 | A direct row is inserted among distinct, unblocked, mutual friends if no block between the two commits between its block check and its INSERT |
| StaleMessages.RowsAmongFriendsIff | internal/service/message_service.go:45-73 | All direct rows of a schedule are inserted among distinct, unblocked, mutual friends if and only if both checks, repeated at each INSERT, would pass |
| StaleMessages.MessageStoredWhileBlocked | internal/service/message_service.go:45-73 | A schedule that stores a message of a user who has been blocked since the check, by an INSERT whose checks would fail |
| Lifecycle.RequestsMoveForward | internal/repository/friend_request_repo.go:74-152 | Between any two moments of any schedule a request only moves forward: pending to accepted or rejected to blocked, or pending to blocked, or deleted while pending and never seen again |
| Lifecycle.WhoMoves | internal/repository/friend_request_repo.go:74-152 | Only the receiver accepts or rejects, only the sender deletes, and exactly a block between the pair marks a request blocked |
| Lifecycle.AtMostTwoChanges | internal/repository/blocks_repo.go:69-75 | No request changes status more than twice in any schedule |
| Database.Database.InsertRequest | internal/repository/friend_request_repo.go:31-47 | Inserts the pending row unless one is pending either way, in which case it silently does nothing |
| Database.Database.GetPendingRequest | internal/repository/friend_request_repo.go:49-72 | Returns a pending row of that sender and receiver exactly when there is one |
| Database.Database.AcceptRequest | internal/repository/friend_request_repo.go:103-152 | Accepts a pending request for its receiver only, adding the friendship both ways; otherwise changes nothing |
| Database.Database.RejectRequest | internal/repository/friend_request_repo.go:88-101 | Rejects a pending request for its receiver only |
| Database.Database.DeleteRequests | internal/repository/friend_request_repo.go:74-86 | Deletes exactly the rows that match, and reports none affected exactly when none matches |
| Database.Database.UpdateRequests | internal/repository/blocks_repo.go:69-75 | Changes the status of exactly the rows that match, and reports none affected exactly when none matches |
| Database.Database.CancelRequest | internal/repository/friend_request_repo.go:74-86 | Deletes a pending request for its sender only |
| Database.Database.BlockUser | internal/repository/blocks_repo.go:38-81 | Adds the block, removes the friendship both ways and marks every request of the pair blocked, in one step |
| Database.Database.UnblockUser | internal/repository/blocks_repo.go:83-95 | Removes the caller's own block or reports that there is none |
| Database.Database.InsertMessage | internal/repository/message_repo.go:25-32 | Appends the row unless its id is taken |
| Database.FriendRequestService.CreateRequest | internal/service/friend_request_service.go:39-110 | The sequence of reads and the insert has the result and the effect of the specified call |
| Database.MessageService.CreateMessage | internal/service/message_service.go:34-77 | Validation, block check, friendship check and insert have the result and the effect of the specified call; without its friend or block repository a direct message is refused and nothing changes |
| HubInvariants.NextKeepsInv | internal/transport/websocket/hub.go:36-73 | Every step of the hub and of its environment keeps the hub invariant, and panics exactly on the unregister of an evicted connection |
| HubRuns.ChannelSafety | internal/transport/websocket/hub.go:39-67 | In every reachable state exactly the open channels are listed, each under its own user; the hub never sends on a closed channel; it has panicked exactly when it last processed the unregister of an evicted connection |
| HubRuns.EvictionIsFatal | internal/transport/websocket/hub.go:58-67 | Once a connection is evicted, the end of its read pump panics the hub with a second close |
| HubRuns.PanicIsReachable | internal/transport/websocket/hub.go:202-216 | A concrete run that ends in that panic |
| HubRuns.ClosedAtMostOnce | internal/transport/websocket/hub.go:39-67 | Across unregister, eviction and quit a channel is closed at most once in any run |
| HubRuns.DeliveryIsExact | internal/transport/websocket/hub.go:93-128 | In every run what a connection was sent equals, in order, the routed messages addressed to it from its registration to its removal; an evicted one was sent exactly 256 more than had been drained at its eviction, and misses next a message addressed to it |
| HubRuns.EvictedBehindFullBuffer | internal/transport/websocket/hub.go:202-216 | Every evicted connection was evicted by one step of the run: open before it, and right after it closed with exactly 256 messages waiting and the recorded number drained |
| HubRuns.CommonOrder | internal/transport/websocket/hub.go:93-128 | Any two connections see their common messages in the same order |
| HubRuns.EvictedIffFull | internal/transport/websocket/client.go:58-66 | An addressed connection is evicted if and only if 256 messages are buffered, and otherwise gets exactly this message appended |
| HubRuns.PresenceAgreement | internal/transport/websocket/hub.go:49-66 | Until the hub is stopped, a user has a table entry exactly when the hub's last announcement about them was user_online; whoever is connected has one, whoever has one has a read pump running; while the hub runs, a user none of whose own connections was evicted has one exactly when connected |
| HubPresence.PassesAreLogged | internal/transport/websocket/hub.go:93-128 | A step of the hub routes exactly the entries of its passes over the table, in order |
| HubPresence.PassEmptiesIff | internal/transport/websocket/hub.go:93-105 | A pass leaves a user's entry empty if and only if it was empty, or the pass is addressed to the user and 256 messages wait on every listed connection of theirs |
| HubPresence.StepEmptiesIff | internal/transport/websocket/hub.go:202-216 | A step empties a user's entry if and only if one of its passes finds all of the user's listed connections full, the message and the ack being two passes |
| HubPresence.NeverEmptyIff | internal/transport/websocket/hub.go:36-73 | In any run a user never has an empty entry if and only if no pass ever finds all of the user's listed connections full |
| HubPresence.PresenceRightThroughoutIff | internal/transport/websocket/hub.go:49-105 | In any run a user is, at every moment before the hub is stopped, announced online exactly while connected, if and only if no pass ever finds all of the user's listed connections full |
| HubPresence.OnlineWithoutConnection | internal/transport/websocket/hub.go:93-105 | A run of 257 actions that ends with a running hub, an empty entry, and a user announced online who has no connection |
| HubRuns.OfflineIffRemoved | internal/transport/websocket/hub.go:58-66 | user_offline is announced in a step exactly when the step removes the user's entry |
| HubRuns.OnlineOnEveryJoin | internal/transport/websocket/hub.go:49-56 | Every registration announces user_online, first to the new connection itself |
| HubOutcomes.StepDelivers | internal/transport/websocket/hub.go:49-183 | In every register, unregister and incoming step every other connection gets, envelope by envelope and field by field, exactly what its user is owed, as far as its buffer has room, and is evicted exactly when that is not all |
| HubOutcomes.NewcomerGets | internal/transport/websocket/hub.go:49-56 | A new connection is first sent user_online for its own user |
| HubOutcomes.LeaverGets | internal/transport/websocket/hub.go:58-67 | The connection that leaves gets nothing any more and is not listed |
| HubOutcomes.OthersSendNothing | internal/transport/websocket/hub.go:39-47 | Draining, room set-up and shutdown send nobody anything |
| HubOutcomes.HubSpeaksTo | internal/transport/websocket/hub.go:85-183 | In every run the hub announces presence to everybody, and says every message, ack and error to exactly the connections of the receiver it names |
| HubOutcomes.LeaveCloses | internal/transport/websocket/hub.go:58-67 | An unregister closes the connection's open channel and records when and why |
| HubOutcomes.StopCloses | internal/transport/websocket/hub.go:39-47 | Quit closes every open channel, empties the table and stops the hub |
| HubOutcomes.RoomsAreAsSetUp | internal/transport/websocket/room.go:8-19 | In every run a room has exactly the members it was last set up with |
| Envelope.TextOfPayload | internal/transport/websocket/hub.go:185-200 | The text field of a payload wins, then the content field; there is no text exactly when both are empty or the payload cannot be decoded |
| HubOrder.OrderIndependent | internal/transport/websocket/hub.go:93-105 | A pass over the table ends in one and the same state for every enumeration of the maps |
| HubOrder.AnyTwoOrdersAgree | internal/transport/websocket/room.go:27-41 | Broadcast, direct send and group send leave the same table, buffers and closed channels for any two enumeration orders |
| WebSocketHub.Hub.BroadcastToAll | internal/transport/websocket/hub.go:93-105 | Offers the message to every listed connection, evicting the full ones, whatever order the maps are ranged over |
| WebSocketHub.Hub.SendToUser | internal/transport/websocket/hub.go:202-216 | The same for the connections of one user |
| WebSocketHub.Hub.SendToGroup | internal/transport/websocket/room.go:21-42 | The same for the members of a room; an unknown room changes nothing |
| WebSocketHub.Hub.CreateRoom | internal/transport/websocket/room.go:8-19 | Registers the set of the given members under the room id |
| WebSocketHub.Hub.HandleUserMessage | internal/transport/websocket/hub.go:130-178 | Persists, delivers and acknowledges, or routes one error, as the message service answers, or as it must without one |
| WebSocketHub.Hub.RouteMessage | internal/transport/websocket/hub.go:107-128 | Routes a frame by event and receiver type |
| WebSocketHub.Hub.OnRegister | internal/transport/websocket/hub.go:49-56 | The register branch |
| WebSocketHub.Hub.OnUnregister | internal/transport/websocket/hub.go:58-67 | The unregister branch, with the unconditional close |
| WebSocketHub.Hub.OnQuit | internal/transport/websocket/hub.go:39-47 | The quit branch closes every listed channel and empties the table |
| WebSocketHub.Hub.OnIncoming | internal/transport/websocket/client.go:101-102 | A frame is routed under the connection's own user as sender |
| WebSocketHub.Hub.Drain | internal/transport/websocket/client.go:107-125 | The write pump takes the oldest waiting message |
| WebSocketHub.Hub.Run | internal/transport/websocket/hub.go:36-73 | The select loop, with drains, room set-up and REST calls between its rounds and with or without a message service, does step by step what the model says, and keeps the hub invariant |
| System.OneOutcome | internal/transport/websocket/hub.go:130-183 | Each direct message frame is answered by exactly one hub ack or one hub error; the ack exactly when a row was stored, and after that row was routed to the receiver; without a wired service always the error |
| System.FrameAnswered | internal/transport/websocket/hub.go:130-183 | One outcome per message, on the wire: the connections of the sender get one ack with the row's id, or one error that names the cause; those of the receiver get the message if it was stored; nobody else gets anything |
| System.AcksReachSenders | internal/transport/websocket/hub.go:146-177 | In every run each ack of the hub carries a stored row's id to exactly the row's sender, right after the row went to exactly its receiver |
| System.AcksAreRows | internal/transport/websocket/hub.go:146-177 | In every run, however the service is wired, the acknowledged ids are the stored ids, one for one and in order, each ack right after its message |
| System.RowsStoredAmongFriends | internal/service/message_service.go:45-60 | For every stored row there is a step of the run that stored it, at which its users were distinct mutual friends with no block either way |
| System.EndToEndSafety | internal/transport/websocket/hub.go:146-171 | Every direct message in any buffer or drained stream, in any run, repeats a stored row's id, sender, receiver and body, is at a connection of the receiver, and was stored among unblocked mutual friends |
| Concurrent.ConcurrentEndToEnd | internal/transport/websocket/hub.go:130-178 | With statements interleaved: every direct message in any buffer or drained stream repeats a stored row, whose storing call had found no block and later friendship; and it was stored among unblocked mutual friends unless one of the two blocked the other in between |
| Concurrent.ConcurrentAcks | internal/transport/websocket/hub.go:146-177 | With statements interleaved: the stored ids are the acknowledged ids, one for one and in order, then the id of the message the hub is still busy with, if its row is stored |
| SlidingWindow.AdmittedEntriesSurvive | internal/transport/middleware/ratelimit.go:20-30 | Expiry, refreshed only on admission, never drops an admitted entry that is still inside the window |
| SlidingWindow.SlidingWindowBound | internal/transport/middleware/ratelimit.go:20-30 | At most limit requests are admitted in any interval (t - window, t] of whole clock seconds |
| SlidingWindow.WallClockBound | internal/transport/middleware/ratelimit.go:44-45 | At most twice the limit is admitted in any interval of window seconds, measured in milliseconds |
| SlidingWindow.LimitHoldsIff | internal/transport/middleware/ratelimit.go:44-45 | Measured in milliseconds, the limit holds in every interval of a given length if and only if that is at most 1000 * (window - 1) + 1, or the limiter denies everything, or the interval is empty |
| SlidingWindow.TwiceTheLimitAttained | internal/transport/middleware/ratelimit.go:44-45 | For every limit and every positive window some requests have twice the limit admitted within less than window seconds |
| SlidingWindow.QuietIsAdmitted | internal/transport/middleware/ratelimit.go:21-26 | A request is admitted whenever fewer than limit requests of any kind fell into the window before it |
| AdmissionRule.AdmittedIff | internal/transport/middleware/ratelimit.go:20-30 | A request is let through if and only if fewer than limit earlier ones, denied ones included, are in its window and in the current life of the key, which begins when a whole window has passed since the last one let through |
| SlidingWindow.Readmission | internal/transport/middleware/ratelimit.go:21-28 | A request more than window whole seconds after the last admitted one is admitted, however many denials came in between |
| SlidingWindow.RedisKey.RunScript | internal/transport/middleware/ratelimit.go:20-30 | The commands of the script have the specified result and effect on the key |
| FixedWindow.ExactBound | internal/transport/websocket/client.go:41-56 | At most RateLimitCount * (ceil(L / (RateLimitWindow + 1)) + 1) calls are allowed in any closed interval of L nanoseconds |
| FixedWindow.BoundAttained | internal/transport/websocket/client.go:41-56 | For every L some calls attain that bound |
| FixedWindow.FixedWindowBound | internal/transport/websocket/client.go:41-56 | In particular at most RateLimitCount * (ceil(L / RateLimitWindow) + 1) |
| FixedWindow.AtMostTwentyPerSecond | internal/transport/websocket/client.go:16-17 | At most 20 calls are allowed in any one-second interval |
| FixedWindow.TwentyAttained | internal/transport/websocket/client.go:41-56 | Twenty are allowed within one nanosecond of a window's end |
| FixedWindow.AllowedIff | internal/transport/websocket/client.go:41-56 | A call is allowed if and only if it comes after the end of the window, or fewer than RateLimitCount calls, refused ones included, came before it in the window |
| FixedWindow.AllowedAfterWindow | internal/transport/websocket/client.go:45-48 | The first call after the window's end is allowed, however many calls came before it ended |
| FixedWindow.RateLimiter.AllowCall | internal/transport/websocket/client.go:41-56 | Updates count and reset time as specified |
| TokenRefresh.SingleFlightAlways | web/src/api/client.ts:109-172 | At every turn boundary isRefreshing holds exactly when one refresh POST is in flight, the queue is empty without one, and every queued waiter is settled exactly once, in FIFO order, by the refresh in flight when it was queued |
| TokenRefresh.RetriesTerminate | web/src/api/client.ts:131-165 | n requests cause at most n refresh POSTs and n + n(n+1)/2 sends, and a run takes at most 3n + n(n+1)/2 turns |
| TokenRefresh.BoundAttained | web/src/api/client.ts:131-165 | For every n some run makes exactly n refresh POSTs and n + n(n+1)/2 sends |
| TokenOutcomes.RequestsEndAsAnswered | web/src/api/client.ts:126-175 | In every run a request has been handed its response if and only if it was answered well, and has been rejected if and only if one of four things happened: another error, a 401 after its retry, a 401 with no refresh under way and no token, or the failure of the refresh it started or waited for |
| TokenOutcomes.SettledByReply | web/src/api/client.ts:115-124 | Every waiter is resolved if and only if the refresh that settled it succeeded |
| TokenOutcomes.TokenIsAsStored | web/src/api/client.ts:153-170 | A failed refresh leaves no token, a good one the token the server sent |
| TokenRefresh.ApiClient.ProcessQueue | web/src/api/client.ts:115-124 | Settles every waiter once in queue order and empties the queue |
| TokenRefresh.ApiClient.OnResponse | web/src/api/client.ts:128-151 | The interceptor up to its first await: queue, start a refresh, give up without a token, or reject |
| TokenRefresh.ApiClient.OnRefreshReply | web/src/api/client.ts:153-172 | The interceptor after the refresh: settle the queue, resend or reject, clear the flag |
| Chronology.AnySortAgrees | web/src/api/messages.ts:23-37 | With distinct ids every sorted permutation is the one list that is oldest first, and by id within an instant, whatever algorithm the engine uses |
| Chronology.MergeConfluent | web/src/api/messages.ts:39-48 | Merging the same messages in any order and multiplicity gives the same list, provided that one id means one message |
| Chronology.CommuteIff | web/src/api/messages.ts:39-48 | Two new messages commute if and only if they do not claim one id with different contents |
| Chronology.MergeIsSortOfUnion | web/src/api/messages.ts:35-48 | Merging messages with distinct ids one by one equals sorting the union once |
| Chronology.PageStaysChronological | web/src/pages/ChatPage.tsx:27-106 | Through every interleaving of history loads, receipts and optimistic sends the list is oldest first, by id within an instant, a missing time stamp counting as 0, and free of duplicates |
| Chronology.SurvivesLoadIff | web/src/pages/ChatPage.tsx:27-40 | After a history load a message is shown if and only if its id is on the loaded page or it arrives afterwards, whatever was shown before |
| Paging.GetConversation | internal/service/message_service.go:79-92 | For any limit and offset the caller gets consecutive rows of the listing from the offset on, newest first, at most limit (50 if it is not positive), and fewer only when no older row is left |
| Paging.GetMessagesBetweenUsers | internal/repository/message_repo.go:60-83 | The row loop returns the page cut out by LIMIT and OFFSET |
| Paging.SameForBoth | internal/repository/message_repo.go:60-66 | Both participants match the same rows and the same listings |
| Paging.ListedBetween | internal/repository/message_repo.go:60-66 | A listing has exactly the rows whose sender and receiver are the two users, and none of a third one |
| Paging.PagesTile | internal/repository/message_repo.go:60-66 | While nothing changes, pages 0, 1, 2, ... give the rows of the listing once each, in order |
| Paging.NeverMovesUp | internal/repository/message_repo.go:65 | When rows are added, wherever they come to stand, a row whose instant no other row has never moves up in the newest-first listing |
| Paging.NothingSkipped | internal/repository/message_repo.go:60-66 | Reading pages 0, 1, 2, ... to a short page skips no row that is there from the start and never moves up |
| Paging.HistoryIsCovered | internal/service/message_service.go:79-92 | If the old instants differ and no inserted row has one of them, merging the pages gives a sorted, duplicate-free list with every row of the conversation that existed at the start, wherever rows are inserted |
| Paging.ShownInOrder | web/src/api/messages.ts:23-48 | Each old row is in the merged list with its id, body and milliseconds, and rows of different milliseconds stand oldest first |
| Paging.NeverSkipsIff | internal/repository/message_repo.go:60-66 | No reading of the pages to a short one skips a row of the first listing, for any page size, any growth by rows of other instants and any order the query may choose among equal ones, if and only if those rows have distinct instants |
| Paging.HistoryShownIff | web/src/api/messages.ts:39-48 | The same for the merged list: it always shows every row of the first listing if and only if those rows have distinct instants |
| Paging.NoSkipAtAnyCutIff | internal/repository/message_repo.go:65 | Cutting page 0 from one listing and the rest from another listing of the same rows loses no row, wherever the cut is, if and only if the rows have distinct instants |
| Paging.TiedRowsSkip | internal/repository/message_repo.go:60-66 | Two rows of one instant and pages of one row: a concrete case in which the second row is on no page |

## Left out

- WebSocketHub.Hub.BroadcastToAll: send channels are values in a map by connection id, not Go objects reached through pointers; each connection has its own channel, so nothing is shared.
- Database.Database.AcceptRequest: does not model two transactions overlapping; each one is a single step.
- System.EndToEndSafety: takes service calls as atomic; `Concurrent.ConcurrentEndToEnd` is the statement for interleaved ones.
- Paging.HistoryIsCovered: needs distinct time stamps among the old rows, and none of them on an inserted row, because the query leaves the order of equal ones open; `Paging.NeverSkipsIff` and `Paging.HistoryShownIff` show that the former is necessary.
- SlidingWindow.SlidingWindowBound: does not model Redis errors, on which the limiter lets everything through.
- Sockets, JSON framing, ping, deadlines and write errors: the pumps are the steps "take one message", "forward a frame" and "exit"; a payload is its decoded text and content fields.
- Database errors, timeouts and foreign keys to users: a statement that fails leaves the tables as they are.
- HTTP decoding, status codes, the 1..100 range check on the limit parameter, CORS, logging, recovery and configuration: one-branch plumbing.
- Listing friends and requests, user accounts, password and token signing: reads and external libraries.
- The reconnect counter of `web/src/api/websocket.ts` and React pages other than the message list: nothing that spans several steps.
- Soft-delete columns, user deletion, the seed script and the uncalled `CreateFriendship`.
