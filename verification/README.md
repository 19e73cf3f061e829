# MEV Plus: a verified model of its message hub, its block auction and its module tools

MEV Plus is a core that hosts modules and lets them talk to each other. This project models what is
hard about it and proves it for all inputs, all runs and all interleavings:

* **The message hub** (`Hub*.dfy`, `JsonRpc.dfy`, `ClientLoop.dfy`, `CoreRelay.dfy`, `CoreConfigure.dfy`).
  Every module owns a client with an outgoing queue, an incoming queue, a table of pending calls, a send
  lock and a request counter; the core runs one relay per module. `Hub.dfy` is a step system with twelve
  kinds of step, interleaved in any way. `HubInvariant.dfy` is its inductive invariant; it contains a
  ledger that weighs every call over all queues of all clients (`HubLedger.dfy`). `HubRuns.dfy`,
  `HubDraining.dfy` and `HubAnswers.dfy` state what follows; `HubReplies.dfy` says where replies come from,
  `HubBroadcasts.dfy` counts single messages and `HubOrder.dfy` keeps their order over whole runs.
  `ClientLoop.dfy` is the client as an object: its validity is the client's part of the invariant, its
  methods run under the guards of the steps, and through any run of the hub it is what the run makes of
  it. `CoreRelay.dfy` is the relay loop.
* **The block aggregator** (`TopThree.dfy`, `AggregatorData.dfy`, `BlockAggregator.dfy`): three headers
  per slot are kept out of a stream, by an unstable sort, within a window of 64 slots.
* **The relay module** (`RelayAuction.dfy`, `RelayService.dfy`, `PayloadRace.dfy`, `RelayConfig.dfy`,
  `U256.dfy`): bids arriving in any order, the cache of who delivered them, the race for the payload, the
  flags.
* **The validator proxy** (`ProxyCollector.dfy`): collecting answers from two channels.
* **Module management and lifecycle** (`ModuleList.dfy`, `InterfaceChecker.dfy`, `Lifecycle.dfy`).

`Wrappers.dfy`, `Words.dfy`, `Bags.dfy` and `Slots.dfy` are the shared vocabulary: results, Go's string
operations, counting in multisets, unsigned slot arithmetic.

Verify everything with `dafny verify dfyconfig.toml`.

## Main results

1. The invariant of the hub holds in every reachable state (`HubRuns.ReachableInv`).
2. Every written call is in the hub exactly once, and in the right place, until its reply is consumed
   (`HubRuns.CallsAreConserved`).
3. A call is resolved only by its own reply, at most once, and a late reply changes nothing
   (`HubRuns.ResolvedByOwnReply`, `ResolvedAtMostOnce`, `ReplyResolvesOnlyItsOp`, `RegisteredUnlessTimedOut`).
   That reply was made by an execution of that very call at the module it names, and carries its result
   or its error (`HubReplies.ReplyIsOfAnExecution`).
4. In every run each notification for the module it names, and each broadcast for each module it is meant
   for, is exactly once still to be relayed, on its way, running or done
   (`HubBroadcasts.NotificationsReachEachOnce`), and what one module sends another arrives and is read in
   the order in which it was sent (`HubOrder.MessagesArriveInOrder`).
5. A call that has not timed out can be answered if and only if it names a module that exists
   (`HubAnswers.AnswerableIff`), and the hub can come to rest if and only if all calls do
   (`HubAnswers.DrainsIffAllServed`). Bounded channels never deadlock it (`HubDraining.Progress`).
6. Through any run of the hub the client object is what the step system says, with its callers, its
   callbacks, the relays and all other modules in between (`ClientLoop.Client.Dispatch`), and a relay
   iteration delivers exactly what the routing rule says (`CoreRelay.Core.RelayOne`, `HubRelay.RelayRoutes`).
7. Streaming with an unstable sort leaves exactly the sorted top threes of the history, and a header is
   sure to stay if and only if fewer than three others are worth as much (`TopThree.StreamingIsTopThree`,
   `TopThree.SurelyKeptIff`).
8. The aggregator's request finishes if and only if its headers fit its channel
   (`BlockAggregator.CollectorReturnsIff`); what it answers is the best header of the slot although other
   requests store in between (`BlockAggregator.ProcessHeaders`).
9. The relay auction is confluent, and its response is so if and only if all winners agree
   (`RelayAuction.AuctionIsConfluent`, `RelayAuction.ResponseIsConfluentIff`).
10. The bid cache refines the history of requests (`RelayService.CacheRefinesHistory`).
11. In every interleaving the first verified payload wins, is written once, and all goroutines return
    (`PayloadRace.FirstVerifiedPayloadWins`, `PayloadRace.RunsAreBounded`).
12. The flags mean the same in every order (`RelayConfig.Settings.ParseConfigFlags`).
13. The proxy loses nothing if and only if no proxy fails or none has anything useful
    (`ProxyCollector.NothingIsLostIff`).
14. Removing imports from the slice being iterated is right under an exact condition, and adding and
    removing a module is a round trip (`ModuleList.RemoveImports`, `ModuleList.AddThenRemove`).
15. The interface check reports a receiver if and only if it implements the interface, owns the first
    match, and nothing crashes (`InterfaceChecker.ImplementsInterface`).
16. In every run of calls on the core the stop channel is closed at most once, and a repeated close can
    panic exactly after a failed one (`Lifecycle.Run`, `Lifecycle.CoreService.Close`).
17. `BigInt` after `FromBig` is the identity if and only if 0 <= x < 2^256 (`U256.RoundTrip`).

## Where the code falls short of its intention

These are proved, each with the exact condition under which the code does what it is meant to do.

* A call (not a notification) to a `core_` name is never answered, whatever happens afterwards
  (`HubAnswers.UnservedIsNeverAnswered`, `HubAnswers.AnswerableIff`). Its error reply is built from a
  message that already carries the reply suffix, so it has no method; handling it produces a message
  whose method is the bare suffix, which is relayed back to the same module, for ever
  (`HubAnswers.DrainsIffAllServed`; `HubAnswers.CoreCallsNeverDrain` starts from one such call).
* A module that calls itself has every message delivered twice: the callback runs twice and four replies
  come back; the call is still resolved once (`HubRuns.CallsAreConserved`, `HubRuns.ResolvedAtMostOnce`).
* A header request of the aggregator waits for ever when its sources return more non-empty headers than
  there are sources (`BlockAggregator.CollectorReturnsIff`, `BlockAggregator.TwoHeadersBlock`).
* The proxy reads errors and responses in pairs that need not belong together, so one failing proxy can
  make it drop the header of another (`ProxyCollector.NothingIsLostIff`, `ProxyCollector.LossyRun`).
* Below slot 64 the pruning bounds wrap around, and a header or bid is deleted in the operation that
  stores it (`AggregatorData.EarlySlotsAreLost`, `RelayService.EarlyBidsAreLost`).
* The bid returned for a header request can depend on the order of arrival, though its value, its hash
  and the relays recorded for it cannot (`RelayAuction.ResponseIsConfluentIff`).
* The relay module computes a signing domain and assigns it to a loop copy of each relay entry. The relays
  keep the zero domain, and since a computed domain starts with the type 0x00000001 and is never zero, no
  relay ever has it (`RelayConfig.Settings.Configure`, `NoRelayHasTheDomain`, `SigningDomainIsLost`).
* Removing a module removes all imports with its path, and nothing else, if and only if no two of them are
  neighbours and it is not the case that both the last import and an earlier one have it
  (`ModuleList.RemoveImports`). With neighbours the second is skipped; with a match at the end the loop
  runs out of range (`ModuleList.NeighboursFail`, `ModuleList.LastMatchFails`). Removing the service panics
  if and only if a call such as `a.b.New()` comes before every service of the module
  (`ModuleList.RemoveService`). A failed write is repaired when adding but not when removing
  (`ModuleList.ModuleListFile.Remove`).
* The interface check only ever counts the receiver of the first matching method of a file, and panics on
  a method without results, on an empty interface or struct type, and on a second, nameless receiver
  (`InterfaceChecker.ImplementsInterface`, `ImplementerIsMissed`, `EmptyInterfaceCrashes`).
* Closing the core shuts its own client first. When a module then fails to stop, closing again may panic
  (`Lifecycle.CoreService.Close`, `Lifecycle.CloseTwice`). A core whose start failed may be started again,
  and then runs its relays twice (`Lifecycle.CoreService.Start`).

## What is assumed about the surroundings

* Module names are not empty, not `core`, and contain no `_` (commands with such a name are refused,
  `common/utils.go:84-95`). They are already in the form in which they are registered, with a lower-case
  first letter and no surrounding space, so that a module's key and its own name are the same. Callback
  names contain no `_` and none is called `response`.
* A client makes fewer than 2^32 requests (`HubRuns.IdsWrapAround` shows why: ids repeat) and is not closed.
* The contexts of callbacks carry no deadline, as in the source, so the timer branch of call handling is
  never taken. A callback is any function from a request to a result or an error.
* Signature checks, hash-tree roots, flag parsers and the outcome of foreign commands are parameters.

## Model

| member | source | states |
|---|---|---|
| JsonRpc.NamespaceInverts | core/common/jsonRPC.go:43-46 | the module is recovered from a method name if and only if its own name has no separator |
| JsonRpc.MethodNameInverts | core/common/jsonRPC.go:48-51 | the callback is recovered from a method name if and only if its own name has no separator |
| JsonRpc.ReplyNameInverts | core/common/jsonRPC.go:43-51 | with the reply suffix the name still gives the same module and callback |
| JsonRpc.SuffixOfKnownName | core/common/jsonRPC.go:31-33 | a known name looks like a reply if and only if the callback is called `response` |
| JsonRpc.CallIsAnswered | core/common/handler.go:175-236 | a call gets one answer with its own id and origin, which carries the result, the callback's error, the bad-parameters error, or the not-found error when no such callback is served; it counts as a reply exactly when the method had no reply suffix yet |
| JsonRpc.KindsOfMessages | core/common/jsonRPC.go:23-33 | by its fields, a request with an id is a call, and a reply only with the suffix and without parameters; one without an id is a notification and nothing else |
| CoreConfigure.KnownCallbacks | core/core.go:95-102 | the loops over modules and callbacks build exactly the names of the gate |
| HubInvariant.GatedShape | core/common/coreClientUtils.go:23-37 | what passes the gate is a call or notification with a registered target, or a `core_` name without one |
| HubInvariant.IdsDistinct | core/common/coreClientUtils.go:18-21 | below 2^32 requests two calls of one client never share an id |
| ClientLoop.Client.NewOp | core/common/coreClientCall.go:25-79 | a call or notification is created under the gate, with the caller's name, parameters, broadcast flag and exclusions; an unknown method costs no id, parameters that cannot be encoded cost one; no other call of the client has the id of a new one |
| ClientLoop.Client.Write | core/common/coreClientCall.go:83-103 | the sender's half of sending: the signal it leaves concerns the operation that holds the send lock, which is its own; what was on record stays |
| ClientLoop.Client.OnReqInit | core/common/coreClient.go:134-138 | accepting an operation registers it and every pending call stays registered |
| ClientLoop.Client.OnReqSent | core/common/coreClient.go:140-147 | a failed write deregisters exactly its own call, a successful one none |
| ClientLoop.Client.OnReqTimeout | core/common/coreClient.go:149-151 | a timed-out call is deregistered and no other |
| ClientLoop.Client.OnRead | core/common/handler.go:144-172 | a reply touches the one call it answers, and not even that when it has timed out or been resolved; anything else starts a callback |
| ClientLoop.Client.Receive | core/common/coreClientCall.go:46-62 | what a waiting caller receives is the reply to its own call; the call ends with the result, with the error the reply reports, or without a result when that is empty |
| ClientLoop.Client.Dispatch | core/common/coreClient.go:106-152 | after any run of the hub the client object is what the run makes of it: dispatch loop, callers and callbacks act through the methods, in any order, the relays and all other modules in between |
| ClientLoop.EveryRunLeavesQueues | core/core.go:288-370 | what the relays leave in the queues of a module can be told for every run, so `Dispatch` covers all of them |
| ClientLoop.Client.TableIsExact | core/common/handler.go:122-130 | the table of a client holds exactly the calls that wait, each under its own id |
| ClientLoop.GuardsAreThoseOfTheSteps | core/common/coreClient.go:124-152 | the guards of the methods are exactly those of the step system |
| ClientLoop.Client.FinishCall | core/common/handler.go:61-95 | the answer of a callback goes to the outgoing queue once and reports how the callback ended; a notification puts nothing there |
| CoreRelay.Core.RelayOne | core/core.go:287-372 | one relay iteration pushes to every module exactly what it is to get of a message that is meant for its origin if it is a reply, and else for the module before the first separator of its name |
| CoreRelay.Core.Broadcast | core/core.go:344-368 | the loop over the modules pushes exactly the copies of the broadcast rule |
| CoreRelay.Core.IsExcluded | core/core.go:348-361 | the exclusion loop decides membership |
| HubRelay.RelayRoutes | core/core.go:293-370 | what each module gets from one relay iteration, by the fields of the message: the module it is meant for the signed message once, or twice if it is the sender, the not-found error, one copy without id, exclusions and sender for every other module not excluded, nothing else; a copy is neither call nor reply |
| HubRelay.NamedModuleIsMeant | core/core.go:295-303 | a request named after a module and a callback is meant for that module if and only if the module's name has no separator |
| HubRelay.OneAddressee | core/core.go:295-303 | every message is meant for exactly one module |
| HubRelay.NotFoundReplyLeadsNowhere | core/core.go:312-325 | the not-found reply has no method, so it is neither reply nor call, and whatever a client answers to it is addressed to nobody |
| HubRelay.RelayConserves | core/core.go:293-370 | a relay iteration neither loses nor invents a call or a stray |
| HubRelay.FinishConserves | core/common/handler.go:61-95 | finishing a callback neither loses nor invents one |
| HubRuns.StepKeepsInv | core/common/coreClient.go:106-152 | every step of every client and relay keeps the invariant of the hub |
| HubRuns.ReachableInv | core/common/coreClient.go:106-152 | the invariant holds after every run |
| HubRuns.CallsAreConserved | core/core.go:287-372 | in every run a written call to an existing module is in the hub exactly once, as request on its way to the target, execution there, or reply on its way back, until its reply is consumed, and its callback starts at most once; with self-delivery the exact numbers are two executions and four replies |
| HubRuns.ResolvedByOwnReply | core/common/handler.go:146-160 | a resolved call named a module that exists and was resolved by the reply to that very call, after its callback had started |
| HubRuns.ResolvedAtMostOnce | core/common/handler.go:156-159 | in every continuation of a run a resolved call keeps its reply |
| HubRuns.ReplyResolvesOnlyItsOp | core/common/handler.go:144-172 | reading a reply changes no operation but the one that made the call, and a late reply changes nothing |
| HubRuns.RegisteredUnlessTimedOut | core/common/coreClient.go:124-152 | when a reply arrives, its call is still registered unless it timed out, or an earlier reply to a self-call has resolved it |
| HubRuns.WriteSignalIsForLastOp | core/common/coreClient.go:134-147 | at most one operation lies between registration and write signal, and the signal is about that one |
| HubRuns.PendingTableIsExact | core/common/handler.go:122-130 | all pending calls have different ids and the table holds exactly them |
| HubRuns.OnlyCallsAreAnswered | core/common/handler.go:178-182 | in every reachable state a running callback is answered if and only if its message has an id: copies never cause a reply |
| HubRuns.RepliesAreNotBroadcast | core/core.go:295-331 | a reply is relayed to the caller it names and to nobody else |
| HubBroadcasts.MessagesAreConserved | core/core.go:288-370 | in every run and for every message and module: as often as the message was put on the wire for the module, with its copies, it is under way to it, running there, or done |
| HubBroadcasts.DueIsExpected | core/core.go:293-368 | a message without id is pushed to its addressee once, twice if that is the sender, to each module that a broadcast is for once, and to nobody else |
| HubBroadcasts.NotificationsReachEachOnce | core/core.go:293-368 | in every run each notification for the module it names and each broadcast for each module it is meant for, with multiplicity, is exactly as often as it is due: to be relayed, on its way, running or done; when the hub is empty the callback has run that often |
| HubOrder.MessagesArriveInOrder | core/core.go:288-370 | in every run what one module has sent another is what has arrived from it, in the same order, followed by what is under way, and arrivals are read in their order |
| HubOrder.QueuesAreBounded | core/common/coreClient.go:72-75 | in every run no queue outgrows its channel of 20000 places |
| HubReplies.RepliesAreMade | core/common/handler.go:61-95 | a reply that is in the hub at the end of a run was there at its start or was made in it by an execution of the call it answers |
| HubReplies.ReplyIsOfAnExecution | core/common/handler.go:61-172 | in every run the reply of a resolved call was made by an execution of that very call at the module it names and reports how that execution ended |
| HubDraining.StraysAreConserved | core/core.go:311-325 | no step the hub takes on its own adds or removes a bouncing call |
| HubDraining.InternalStepsWork | core/core.go:288-370 | every relay, read and finish step lowers a measure over all queues, except answering the error reply of a call nobody serves |
| HubDraining.Progress | core/core.go:288-370 | bounded channels never deadlock the hub: while anything is left some step is possible |
| HubDraining.InternalRunsAreBounded | core/core.go:288-370 | without bouncing calls an undisturbed hub takes at most as many steps as the measure says |
| HubAnswers.CoreCallsNeverDrain | core/common/jsonRPC.go:58-66 | in every configuration one call to `core_ping`, made, registered and written, is enough to keep the hub from ever coming to rest |
| HubAnswers.ReachableMirrors | core/core.go:311-325 | in every reachable state there is a bouncing call if and only if a call nobody serves has been written |
| HubAnswers.DrainsIffAllServed | core/core.go:288-370 | from every reachable state the hub can come to rest if and only if every call ever written names a module that exists, and then every way of going on is bounded |
| HubAnswers.QuietMeansAnswered | core/common/handler.go:144-172 | when nothing but bounced calls is left, every call to an existing module has run and is resolved, unless it timed out |
| HubAnswers.EveryCallIsAnswered | core/common/handler.go:61-172 | liveness: every undisturbed run that gets there has answered every call to an existing module that had not timed out before, and there is such a run |
| HubAnswers.UnservedIsNeverAnswered | core/core.go:311-325 | a call nobody serves is never answered, in no continuation of the run |
| HubAnswers.AnswerableIff | core/core.go:311-328 | a written call that has not timed out can be answered if and only if it names a module that exists |
| HubAnswers.ServedCallIsReachable | core/common/coreClientCall.go:25-63 | every call from one module to a callback of another can be written, in every configuration |
| TopThree.StreamingIsTopThree | modules/block-aggregator/data/data.go:61-72 | appending, sorting unstably and truncating one header at a time can leave a list if and only if it is a sorted top three of the whole history |
| TopThree.KeptValuesAreTheLargest | modules/block-aggregator/data/data.go:61-72 | the kept values are the first three of all values sorted, for every choice of the sorts |
| TopThree.SurelyKeptIff | modules/block-aggregator/data/data.go:61-72 | a header is kept under every choice of the sorts if and only if fewer than three others are worth as much |
| AggregatorData.AggregatorData.AddSlotHeader | modules/block-aggregator/data/data.go:53-85 | a header is accepted unless its slot is old; the bounded, pruned store stays the exact picture of the history |
| AggregatorData.AggregatorData.PruneOldSlots | modules/block-aggregator/data/data.go:76-81 | exactly the slots below the wrapping bound are deleted |
| AggregatorData.AggregatorData.GetSelectedSlotHeaders | modules/block-aggregator/data/data.go:102-112 | the selected header is the most valuable ever accepted for its slot; there is one exactly while the slot is in the window |
| AggregatorData.AggregatorData.GetSlotHeaderByHash | modules/block-aggregator/data/data.go:87-100 | a header found by hash was accepted with that hash, and every safe header is found |
| AggregatorData.RetainedValuesAreTheLargest | modules/block-aggregator/data/data.go:53-85 | the list of a retained slot is sorted, has one to three entries, its values are the largest of the history, and its slot is in the window |
| BlockAggregator.CollectorIsComplete | modules/block-aggregator/backend.go:117-156 | for every interleaving of the sources: what is drained is exactly all their non-empty headers, and nobody is stuck before that if there are at most as many as sources |
| BlockAggregator.CollectorReturnsIff | modules/block-aggregator/backend.go:122-156 | the wait group is released in some interleaving if and only if there are at most as many headers as sources |
| BlockAggregator.TwoHeadersBlock | modules/block-aggregator/backend.go:139-156 | one source that returns two headers blocks the request for ever |
| BlockAggregator.ProcessNewBid | modules/block-aggregator/bidHandling.go:8-34 | a bid with value and hash is stored under its module and slot with its own value and hash, any other is refused without change |
| BlockAggregator.ProcessHeaders | modules/block-aggregator/backend.go:158-173 | with other requests storing before each bid: when it succeeds, all its bids are stored with their values, and the answer is the most valuable header of the slot, worth at least as much as each of them |
| BlockAggregator.UndisturbedBids | modules/block-aggregator/backend.go:158-163 | without other requests exactly the bids of the request are stored, in order, when they are well-formed and the slot is not old |
| BlockAggregator.PayloadSource | modules/block-aggregator/backend.go:176-194 | the module asked for a payload delivered an accepted header with that hash; every safe header has one as long as no empty bid was stored |
| RelayAuction.RaceFindsTheMaximum | modules/relay/outgoing_calls.go:28-117 | the running best is a bid one of the relays sent, with that bid's own value, hash, parent, key and root, and no reply that passes the checks has a higher value, or the same with a smaller hash; there is none exactly when no reply passes |
| Words.LessIsLexicographic | modules/relay/outgoing_calls.go:105-109 | the order on hashes goes by the first position where they differ |
| RelayAuction.RaceKeepsTheFirst | modules/relay/outgoing_calls.go:100-117 | among equal bids the first to arrive is kept |
| RelayAuction.AuctionIsConfluent | modules/relay/outgoing_calls.go:94-117 | every order of arrival gives the same value, the same hash and the same relays, with multiplicity |
| RelayAuction.ResponseIsConfluentIff | modules/relay/outgoing_calls.go:101-117 | the bid returned is the same for every order if and only if all winning replies agree |
| RelayAuction.ResponseCanDependOnTheOrder | modules/relay/outgoing_calls.go:101-117 | two relays with equal value and hash give different results in different orders |
| RelayAuction.DelivererDelivered | modules/relay/outgoing_calls.go:28-98 | a relay is recorded for a hash if and only if it sent a bid with that hash, its own key, the parent asked for, a value that is neither zero nor under the minimum, and a good signature where one is required |
| RelayService.Auction.RequestRelayHeader | modules/relay/outgoing_calls.go:16-118 | handling one reply keeps the shared result and relay map equal to the race and the record of all arrivals |
| RelayService.RelayService.ProcessGetHeader | modules/relay/internal.go:50-100 | input errors, no bid exactly when no reply passes the checks, or the best bid that was delivered with exactly its relays, stored and returned, for every order of arrival |
| RelayService.RelayService.PruneOldBids | modules/relay/internal.go:91-96 | exactly the keys below the wrapping bound are deleted |
| RelayService.CacheRefinesHistory | modules/relay/internal.go:87-96 | a key maps to its last stored result, and does so if and only if no successful request from that one onward put its slot out of the window |
| RelayService.WindowInSlots | modules/relay/internal.go:91-96 | in slots: no later request more than 64 ahead |
| RelayService.EarlyBidsAreLost | modules/relay/internal.go:93 | below slot 64 a stored bid is gone again |
| RelayService.CachedRelaysAreTheDeliverers | modules/relay/internal.go:80-89 | the relays cached for a bid are those that delivered it with every check passed, the same for every order of arrival, and at least one |
| RelayService.RelayService.ProcessGetPayload | modules/relay/internal.go:103-155 | a payload request goes to exactly the cached relays, and succeeds if and only if one sends, within its attempts, a payload with the block's hash and roots and as many commitments as proofs and blobs |
| RelayService.PayloadRequest.RequestRelayPayload | modules/relay/outgoing_calls.go:121-233 | the first answer within the allowed attempts becomes the result if it is a payload of the block and there is none yet; nothing else does |
| RelayService.AskAll | modules/relay/internal.go:129-153 | the fan-out over the relays, for every order in which they finish |
| PayloadRace.FirstVerifiedPayloadWins | modules/relay/outgoing_calls.go:150-232 | in every interleaving the result is what the first goroutine in the critical section brought, sent by its relay, with the right block hash and roots; no relay is asked more often than allowed |
| PayloadRace.ResultIsWrittenOnce | modules/relay/outgoing_calls.go:217-231 | once written the result is never overwritten |
| PayloadRace.PayloadIsFoundIff | modules/relay/internal.go:137-153 | when all goroutines have returned there is a result if and only if some relay sent a payload of the block |
| PayloadRace.VerifiedIff | modules/relay/outgoing_calls.go:149-200 | the checks accept exactly the payloads with the block's hash and roots and as many commitments as proofs and blobs |
| PayloadRace.EveryGoroutineReturns | modules/relay/utils.go:200-220 | a goroutine gives up if and only if its context has ended or its attempts are used up, else it tries; no goroutine is ever stuck |
| PayloadRace.RunsAreBounded | modules/relay/internal.go:137-145 | no run of the goroutines is longer than the work there is at the start: the wait group is released |
| RelayConfig.FlagStep | modules/relay/utils.go:275-373 | after any set of flags in any order the local variables say exactly what was given; an error means the map as a whole is unacceptable |
| RelayConfig.Settings.ParseConfigFlags | modules/relay/utils.go:269-380 | for every iteration order exactly the maps with valid values, at most one network choice and no custom time without custom fork are accepted; the configuration is a function of the map and has what each flag says, the networks' constants and the timeout in nanoseconds included |
| RelayConfig.Settings.Configure | modules/relay/relay.go:88-115 | exactly when configuring succeeds, and that afterwards no relay has the computed signing domain |
| RelayConfig.NoRelayHasTheDomain | modules/relay/signing/fastssz.go:29-51 | a computed domain is its type followed by the root, so it is never zero and no relay without a domain has it |
| RelayConfig.SigningDomainIsLost | modules/relay/relay_entry.go:32-61 | with one relay given as a flag configuring is accepted, and the relay does not have the domain |
| U256.BitLenBounds | modules/relay/common/common.go:49 | the bit-length test is a bound on the absolute value |
| U256.ReversedSwitchesOrder | modules/relay/common/common.go:59-67 | reversing the bytes turns big-endian into little-endian |
| U256.LittleEndianInjective | modules/relay/common/common.go:69-71 | different bytes stand for different numbers |
| U256.Reverse | modules/relay/common/common.go:59-67 | the swapping loop makes a reversed copy |
| U256.FromBig | modules/relay/common/common.go:48-57 | succeeds exactly on 0 <= x < 2^256 with bytes that stand for x; changes nothing on error |
| U256.BigInt | modules/relay/common/common.go:69-71 | the number the bytes stand for |
| U256.RoundTrip | modules/relay/common/common.go:48-71 | `BigInt` after `FromBig` is the identity if and only if 0 <= x < 2^256 |
| U256.BytesRoundTrip | modules/relay/common/common.go:48-71 | `FromBig` after `BigInt` gives the same bytes back |
| ProxyCollector.NobodyBlocks | modules/external-validator-proxy/apis.go:106-133 | in every interleaving no goroutine is blocked on a push, nor the collector once all have pushed |
| ProxyCollector.OnlyUsefulAreReturned | modules/external-validator-proxy/apis.go:131-143 | only useful responses of proxies that did not fail are returned, each at most once |
| ProxyCollector.NothingIsLostIff | modules/external-validator-proxy/apis.go:106-143 | every interleaving returns all useful responses if and only if no proxy fails or none has anything useful |
| ProxyCollector.LossyRun | modules/external-validator-proxy/apis.go:115-133 | an interleaving that drops a useful response, for every failing proxy beside a useful one |
| ProxyCollector.GetHeader | modules/external-validator-proxy/apis.go:102-156 | the headers returned are exactly those the interleaving lets through, all of them sent by proxies, and all that were sent if no proxy failed; an error only if there are none |
| ProxyCollector.FirstSuccess | modules/external-validator-proxy/apis.go:51-59 | succeeds if and only if one answer does, or nobody is asked, for every order of arrival |
| ModuleList.RemoveImports | core/additionalFeatures/moduleManagement/common/moduleListOperator.go:279-286 | what removing from the slice being iterated leaves, when it goes out of range, and that all matching imports and nothing else are removed if and only if no two are neighbours and not both the last and an earlier one match |
| ModuleList.NeighboursFail | core/additionalFeatures/moduleManagement/common/moduleListOperator.go:279-286 | of two neighbouring matches the second is left over, and at the end it overruns |
| ModuleList.LastMatchFails | core/additionalFeatures/moduleManagement/common/moduleListOperator.go:279-286 | matches that are no neighbours overrun when the last import is one of them |
| ModuleList.SingleMatchIsRemoved | core/additionalFeatures/moduleManagement/common/moduleListOperator.go:279-286 | with one match the removal is correct |
| ModuleList.RemoveService | core/additionalFeatures/moduleManagement/common/moduleListOperator.go:379-389 | the first service called on the alias is removed; it panics if and only if a call whose selector has no identifier as its base comes before every such service |
| ModuleList.AddingEdits | core/additionalFeatures/moduleManagement/common/moduleListOperator.go:46-178 | when adding is refused; else the first import declaration has the module's path without version as its last import and the list the service as its first element, and nothing else has changed |
| ModuleList.RemovingEdits | core/additionalFeatures/moduleManagement/common/moduleListOperator.go:263-398 | when removing succeeds, exactly; then the first declaration with a matching import is swept, the first service under the import's name is gone, and nothing else has changed |
| ModuleList.FoldingIgnoresCase | core/additionalFeatures/moduleManagement/common/moduleListOperator.go:281 | paths match letter by letter, whatever their case |
| ModuleList.AddThenRemove | core/additionalFeatures/moduleManagement/common/moduleListOperator.go:85-94 | adding a module with a new import path and removing it gives back the imports up to the formatter's order and the same services; the whole file if and only if it had a service list |
| ModuleList.ModuleListFile.Add | core/additionalFeatures/moduleManagement/common/moduleListOperator.go:181-236 | the file is the edited one on success and the old one on failure, unless restoring fails |
| ModuleList.ModuleListFile.Remove | core/additionalFeatures/moduleManagement/common/moduleListOperator.go:400-454 | the same, except that a failed write is not repaired |
| InterfaceChecker.CompareTypes | core/additionalFeatures/moduleManagement/common/interfaceChecker.go:243-291 | the comparison loop: all types have the expected names and packages, or the first that does not differs or has no name to compare |
| InterfaceChecker.CompareTypeMeans | core/additionalFeatures/moduleManagement/common/utils.go:18-45 | one type agrees exactly when the name it is built from is the expected one and comes from the expected package, and crashes exactly when there is none |
| InterfaceChecker.HitMeans | core/additionalFeatures/moduleManagement/common/interfaceChecker.go:115-171 | a match is a method of the struct, or of a pointer to it, with the name, parameters and results of the interface method |
| InterfaceChecker.ImplementsInterface | core/additionalFeatures/moduleManagement/common/interfaceChecker.go:104-195 | a receiver is reported if and only if it implements the interface, owns the first match of the file, and nothing crashes |
| InterfaceChecker.CountIsExact | core/additionalFeatures/moduleManagement/common/interfaceChecker.go:152-174 | the count of a receiver is the number of different interface methods it has |
| InterfaceChecker.FoundIff | core/additionalFeatures/moduleManagement/common/interfaceChecker.go:177-192 | the same about the verdict as a function of the file |
| InterfaceChecker.OneReceiverIsFound | core/additionalFeatures/moduleManagement/common/interfaceChecker.go:107-192 | an implementing receiver is reported when all matching methods are its own and no comparison crashes |
| InterfaceChecker.ImplementerIsMissed | core/additionalFeatures/moduleManagement/common/interfaceChecker.go:162-171 | an implementing receiver is missed when a method of another one matches first |
| InterfaceChecker.EmptyInterfaceCrashes | core/additionalFeatures/moduleManagement/common/utils.go:30-31 | a matching method that returns the empty interface crashes the check |
| Lifecycle.NoDoubleStop | core/common/module.go:137-164 | between two stops of a module there is a successful start |
| Lifecycle.ModuleRegistry.StartModuleServices | core/common/module.go:55-107 | in any order: all modules are live, or a failing one ended it and is not |
| Lifecycle.ModuleRegistry.StopModuleServices | core/common/module.go:109-164 | exactly the live modules whose Stop fails stay live; Stop is only called on live ones |
| Lifecycle.CoreService.Configure | core/core.go:82-169 | succeeds if and only if every module takes its flags and connects and none has its channels already; when a module refuses its flags the core is unchanged, otherwise it has a new client |
| Lifecycle.CoreService.Start | core/core.go:172-208 | state errors; otherwise running with all modules live, or still initializing with only those live whose Stop failed |
| Lifecycle.CoreService.Close | core/core.go:210-266 | closes exactly when every live module stops; closed is final; it can panic if and only if the core is not closed and an earlier close of the present client has failed |
| Lifecycle.Run | core/core.go:172-266 | in every run of calls the stop channel is closed at most once, exactly when the state is closed, and then no module is live; a run ends in a panic only after a failed close |
| Lifecycle.CloseTwice | core/common/coreClient.go:95-101 | one module that does not stop and two closes lead to the panic |

## Left out

- Closing a client while calls are in flight: the source does not resolve them, so nothing is promised. That the reader or a waiting sender may take the close signal in place of the dispatch loop is not modelled; of the core's own client the model has whether it is open or shut.
- The ping of a module that connects while the core is configured: whether it is the one the core asked for is one of the outcomes of connecting. Registering a service stores its callbacks under a formatted name; the registered names are given.
- Encoding and decoding of parameters and results, reflection, HTTP: a callback or request has an arbitrary outcome.
- BLS signatures and tree hashing are parameters; comparing blob commitments has no effect in the source beyond logging, and its index error for surplus commitments is not modelled.
- Sleeping until the auction deadline, request deadlines and the 30-second start timer: a timeout is one of the possible outcomes. A Start that reports after its timeout sends on a closed channel; not modelled.
- Setting the last slot by hand: only tests do so, and it breaks the window.
- The number that makes an import alias unique is a parameter of `ModuleList.AddTo`; finding a package by running the go tool is one too.
- `strings.EqualFold` is modelled on ASCII.
- The relay's channels: what a relay goroutine still has to push is a list of the step system, and the message in the reader's hand counts as part of the incoming queue, so that queue may hold one more than its channel.
- Request operations are values in a sequence, not shared references.
- RelayService.RelayService.ProcessGetPayload: the goroutines run one after the other in any order; their finer interleaving, and requests cut short by the cancellation, are in `PayloadRace`.
- RelayService.RelayService.ProcessGetHeader: replies are handled one after the other in any order, as the mutex of the source makes them.
- ModuleList.AddTo: formatting may reorder imports but not merge them.
- The same append that extends the list of connected sources by the notification exclusions may share memory between calls; lists are values here.
- Command line, help texts, logging, version strings.
