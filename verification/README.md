# Verified models of the request/response reactors

This project models the batched request/response simulation of `req_rsp_mock`, the connector layer
and the two containers it is built on, and three further pieces of the repository that correlate
answers with questions: the slot manager of `CxtMgr.lf`, the multiply-accumulate pipeline of
`MAC.lf`, and the guard-terminated hash map of `hashmap.h`. `dafny verify dfyconfig.toml` checks
everything.

## What is modelled

**The batched protocol.** A client issues a request for 1 to 10 blocks; a dispatcher splits it into
one sub-request per mask bit, sends the sub-requests to a worker one per trigger, and reports each
block that comes back, and the request when its mask is empty.

- `Protocol` is the state machine, one step per reaction, with a step that faults where the C code
  would dereference NULL or shift too far, and an error count for the branches that log an error.
- `Invariant` and `Preservation` give the global invariant and show that every enabled step keeps it
  and none faults; `Theorems` draws from it what holds along every run, `Draining` that the protocol
  comes to rest with everything answered and that every run ends by the client's stop, and `Schedule`
  that one tag of the reactor runtime is a run of such steps in the one order the wiring allows.
- `PriorityQueue`, `TombstoneMap`, `Handlers`, `Reactors` and `Base` are the imperative program: the
  linked-list queues and the hash table edited in place, the eight handlers with their 32-bit masks
  and shift loops, the reactors that find their connectors in the hash table, and the program that
  joins them by ports and events. `Base.Program.React` shows that any enabled reaction of that
  program, in any state it can get to, is the protocol's step, so the theorems are about the program.
- `QueueSpec`, `MapQueue`, `MapSpec`, `Probing`, `Bitmask` and `Collections` hold what these rest on:
  the queue as a sorted list, as a finite map and as a timed system; the probe invariant; words as
  sets of bits.

**The slot manager** (`CxtMgr`). A table of slots keyed by tag, searched and edited in place, and a
timed system around it for any number of slots, any period and any delay limits.

**The multiply-accumulate pipeline** (`Mac`, `MacReactors`). Two services that answer late, in any
order or never, three context managers and two uid counters, reaction by reaction: what the client asks,
what it is told, and that every request whose event is not lost is answered.

**The guard-terminated hash map** (`SentinelMap`). The two-scan search over an array whose last cell
is never written, for any key type and any hash function.

## How the models read the code

- Clock readings, random choices and memory not yet written are arbitrary inputs.
- Pending `fetch_page` events, and the events of the services in the pipeline, may be delivered in any order.
- A port is an optional slot. A reaction fires only when the ports it writes are free;
  `Schedule.TagIsRun` shows for the batched protocol that the runtime's order within a tag always finds them free.
- A stop request disables nothing in the model. The runtime executes the rest of the tag and the next
  microstep (comment on `lf_request_stop` in `tracing/include/core/reactor.h`) and then ends, so every
  run of the program is a run of the model, up to its last reaction.
- Counters of 32 and 64 bits wrap explicitly. A run of the protocol starts with
  10 * (total_refs + 1) below 2^32, which keeps its id counters from wrapping; runs of the pipeline
  issue a uid only while one is left.
- `client_interim_response` prints the request before it compares it with NULL, so a failed lookup is a
  fault there and not an error return. It is shown to be unreachable like the others.
- The comment on `get` in `hashmap.h` promises a crash for a key that is not in the table. The code
  crashes only if the table is full; otherwise it returns memory never written
  (`SentinelMap.HashMap.Get` says exactly when).
- The dispatcher schedules its trigger for a request without looking at the mask. For an empty mask
  that would wake it for nothing (`Theorems.WakeUpNeedsABit` says exactly when); the client never
  sends one.
- A context manager never takes contexts out of its buffer, and `operator[]` enters a default context
  for an unknown uid. The latter is modelled and shown never to happen.

## Model

| member | source | states |
|---|---|---|
| Theorems.ExactlyOnce | req_rsp_mock/src/abstracts/defs.c:98-175 | in every run, each reported block belongs to its request and is reported once; a request finishes once, after all its blocks and before nothing else about it |
| Theorems.LogGrows | req_rsp_mock/src/base.lf:94-119 | what the client was told stays told: along a run the log and the issue history only grow |
| Theorems.IssuesWhatWasDrawn | req_rsp_mock/src/abstracts/defs.c:16-43 | a draw of len issues exactly one request, for the len blocks from the client's first block on, all of them missing; the same request goes on the port and into the client's queue, under the number of its issue |
| Theorems.NothingElseIssued | req_rsp_mock/src/base.lf:72-92 | no other reaction issues a request |
| Theorems.StopsAfterTheLast | req_rsp_mock/src/base.lf:111-118 | the stop is requested at a batch response, at every one once all requests were issued, and never otherwise |
| Theorems.RunKeeps | req_rsp_mock/src/base.lf:276-286 | the global invariant holds at every point of every run |
| Theorems.ReachableStep | req_rsp_mock/src/abstracts/defs.c:77-166 | an enabled reaction takes no NULL branch and no "BITMASK not ZERO" branch, dereferences no NULL and shifts by no undefined amount, and leads to a reachable state |
| Theorems.LookupsSucceed | req_rsp_mock/src/abstracts/defs.c:242-258 | every lookup by id that a pending event or port will cause finds its entry, and every shift amount is below the request's length, at most 10 |
| Theorems.TwoCopies | req_rsp_mock/src/abstracts/defs.c:121-122 | the client's mask is full until the dispatcher takes the request, and then the dispatcher's mask plus, disjointly, the bit of an undelivered interim response |
| Theorems.OwnershipExact | req_rsp_mock/src/abstracts/defs.c:195-215 | a bit of an open mask is set if and only if exactly one sub-request for its block waits in the scheduler queue or is at the worker |
| Theorems.WorkerHoldsSent | req_rsp_mock/src/base.lf:238-264 | each sub-request sent is in exactly one of the request port, the worker's queue (with exactly one pending event) and the result port |
| Theorems.BitsConserved | req_rsp_mock/src/abstracts/defs.c:177-282 | the popcounts of all open masks add up to the sizes of the scheduler queue and the worker-side output queue, and the latter to what is at the worker |
| Theorems.DispatchOrder | req_rsp_mock/src/abstracts/defs.c:219-240 | blocks are sent request after request and block after block, none skipped, even while batches arrive; whatever waits comes later in that order |
| Theorems.NoLostWakeUp | req_rsp_layer/translation.h:226-235 | the trigger is pending exactly once while work is queued, and not at all otherwise |
| Theorems.WakeUpNeedsABit | req_rsp_layer/translation.h:267-279 | taking a request keeps that rule if and only if its mask is not empty or work was queued already |
| Preservation.StepKeeps | req_rsp_mock/src/abstracts/defs.c:7-282 | every enabled step runs without a fault and keeps the global invariant |
| Preservation.SplitMaskCreates | req_rsp_mock/src/abstracts/defs.c:196-215 | the shift loop makes one sub-request per set bit, in ascending order, under consecutive ids |
| Preservation.AllBlocksAscend | req_rsp_mock/src/abstracts/defs.c:199-206 | creation order is ascending by request and block |
| Draining.StepDrains | req_rsp_mock/src/base.lf:171-264 | every reaction but issuing a request leaves strictly less work, by a measure over queues, ports and events |
| Draining.DrainBounded | req_rsp_mock/src/base.lf:171-264 | a run that issues no request is no longer than the work it starts with |
| Draining.DrainedIsQuiet | req_rsp_mock/src/abstracts/defs.c:46-282 | when nothing but issuing is enabled, all five queues, the ports and the events are empty and every issued request was reported block by block and finished |
| Draining.DrainCompletes | req_rsp_mock/src/base.lf:171-264 | from every reachable state such a run leads to rest, or to the client's request to stop |
| Draining.StepWorks | req_rsp_mock/src/base.lf:72-264 | every reaction, issuing included, leaves strictly less of the work of the whole simulation |
| Draining.RunBounded | req_rsp_mock/src/base.lf:72-286 | no run is longer than 62 steps for each request the client is to issue |
| Draining.EndsByStop | req_rsp_mock/src/base.lf:79-118 | nothing is enabled only after the client has requested the stop, and then every request it was to issue was issued, reported block by block and finished |
| Schedule.TagIsRun | req_rsp_mock/src/base.lf:276-286 | within a tag the eight reactions, each firing exactly if its trigger is present, are legal steps in order, and all ports end empty |
| Base.Program.constructor | req_rsp_mock/src/base.lf:52-70 | startup establishes an initial state of the protocol, with the given number of references and first block |
| Base.Program.SchRef | req_rsp_mock/src/base.lf:72-92 | one request for exactly the drawn number of blocks is issued and put on the port, all its blocks missing; the whole effect is the protocol's issuing step |
| Base.Program.BatchRequest | req_rsp_mock/src/base.lf:171-179 | taking a request is the protocol's splitting step, wake-up included |
| Base.Program.StorageReqTrigger | req_rsp_mock/src/base.lf:181-188 | the trigger's reaction is the protocol's sending step, re-arming included |
| Base.Program.Task | req_rsp_mock/src/base.lf:238-255 | the worker queues the block and schedules exactly one event for it |
| Base.Program.FetchPage | req_rsp_mock/src/base.lf:257-264 | an event takes its block out of the worker's queue and answers, or counts an error |
| Base.Program.WorkstreamRsp | req_rsp_mock/src/base.lf:190-197 | the worker's answer is the protocol's replying step, whenever that does not fault |
| Base.Program.InterimRsp | req_rsp_mock/src/base.lf:94-101 | an interim response is the protocol's filling step, whenever that does not fault |
| Base.Program.BatchRsp | req_rsp_mock/src/base.lf:103-119 | a batch response drops the request and requests the stop exactly if the last request was issued |
| Base.Program.React | req_rsp_mock/src/base.lf:276-286 | in any state the program can get to, any enabled reaction runs, is the protocol's step and counts no error |
| Base.Program.RunTag | req_rsp_mock/src/base.lf:276-286 | a whole tag: the eight reactions run in order, each exactly if its trigger is present and then as the protocol's step, and leave all ports empty |
| Reactors.Client.SchRef | req_rsp_mock/src/base.lf:72-92 | one request of the drawn length under the next id enters the output queue; the action repeats until the last request, which sets the terminate flag |
| Reactors.Client.WorkstreamRsp | req_rsp_mock/src/base.lf:94-101 | the connector is found, and exactly one block leaves one mask of the queue |
| Reactors.Client.BatchResponse | req_rsp_mock/src/base.lf:103-119 | exactly the finished request leaves the queue; a complaint is due exactly if its mask is not empty |
| Reactors.Dispatcher.BatchRequest | req_rsp_layer/translation.h:267-279 | the connector found for the port selects the handler, its own input queue and the scheduler queue of the connector linked to it; the request and its sub-requests are queued there; the wake-up is due exactly if no work was queued before |
| Reactors.Dispatcher.StorageReqTrigger | req_rsp_layer/translation.h:226-235 | the connector found for the action selects the handler and the queues; the least sub-request moves to the output queue and the port; the trigger repeats exactly if work is left |
| Reactors.Dispatcher.WorkstreamRsp | req_rsp_layer/translation.h:288-294 | the connector found for the port selects the handler, its output queue and the input queue of the linked connector; one sub-request leaves, its bit leaves its request's mask, and a request without bits is dropped and answered |
| Reactors.FindInput | req_rsp_layer/translation.h:253-258 | the lookup leads to the connector registered for the port, to the handler of its input or interim input, whichever has that port, and to its linked connector |
| Reactors.FindScheduler | req_rsp_layer/translation.h:212-217 | the lookup leads to the connector registered for the action and to the handler of its scheduler |
| Reactors.Worker.Task | req_rsp_mock/src/base.lf:238-255 | the block is queued under the id it came with, which is the id of the scheduled event |
| Reactors.Worker.FetchPage | req_rsp_mock/src/base.lf:257-264 | the event's id, and nothing else, leaves the queue, and is answered exactly if it was there |
| Reactors.Client.constructor | req_rsp_mock/src/base.lf:52-70 | the client's map leads from its action and both inputs to its connector, and its queue is empty |
| Reactors.Dispatcher.constructor | req_rsp_mock/src/base.lf:144-169 | the dispatcher's map leads each of its ports to the right one of its two connectors |
| Reactors.Worker.constructor | req_rsp_mock/src/base.lf:221-236 | the worker's map leads its input and its action to its connector |
| Handlers.ScheduleReference | req_rsp_mock/src/abstracts/defs.c:7-44 | the queued request and the one on the port are the same: next id, drawn length, one set bit per block |
| Handlers.ClientInterimResponse | req_rsp_mock/src/abstracts/defs.c:98-138 | an assignment through the peeked pointer removes one block from one mask and changes nothing else in the queue |
| Handlers.ClientResponse | req_rsp_mock/src/abstracts/defs.c:140-175 | the request leaves the queue, complaint or not |
| Handlers.ProcessBatchRequest | req_rsp_mock/src/abstracts/defs.c:177-217 | the 32-bit mask and the shift loop queue one sub-request per member of the set the mask stands for |
| Handlers.SplitWord | req_rsp_mock/src/abstracts/defs.c:195-215 | the shift loop ends, having visited the set bits lowest first |
| Handlers.ScheduleDiskRequest | req_rsp_mock/src/abstracts/defs.c:219-240 | the head of the scheduler queue, its least id, moves over; an empty queue changes nothing |
| Handlers.ProcessDiskResponse | req_rsp_mock/src/abstracts/defs.c:242-282 | the reply names the sub-request's parent and block, and a batch response goes out exactly if that was the last block |
| Handlers.EnqueueTask | req_rsp_mock/src/abstracts/defs.c:46-65 | a task enters the queue under its id unless that id is queued |
| Handlers.EmulateDelay | req_rsp_mock/src/abstracts/defs.c:67-96 | exactly the event's id leaves the queue if it is there |
| Handlers.TickedOffReqs | req_rsp_mock/src/abstracts/defs.c:249-280 | clearing the bit in the word, and comparing with zero, is removing the block from the set, and asking whether it is empty |
| Bitmask.FullMask | req_rsp_mock/src/abstracts/defs.c:25-27 | the loop yields 2^len - 1, which has one bit for each of the len blocks and no other |
| Bitmask.ShiftDown | req_rsp_mock/src/abstracts/defs.c:196-215 | the low bit of the shifted word tells about position i, and the shift moves the remaining members down by one |
| Bitmask.ClearBits | req_rsp_mock/src/abstracts/defs.c:121-122 | clearing a bit removes that position and no other |
| Bitmask.ClearingOrder | req_rsp_mock/src/abstracts/defs.c:258-266 | clearing bits in any order reaches zero exactly when all set bits are among them |
| PriorityQueue.Queue.constructor | utils/queue.c:17-57 | a new queue is empty, nothing served, ids from 0, the least size recorded the largest word and the greatest 0 |
| PriorityQueue.Queue.PEnqueue | utils/queue.c:86-119 | a new id is linked in at its place in the ascending order, a queued id is refused and nothing changes; size and statistics follow |
| PriorityQueue.Queue.Locate | utils/queue.c:96-109 | the walk stops where the id is or belongs, so breaking off early misses no duplicate |
| PriorityQueue.Queue.Splice | utils/queue.c:111-115 | the node is linked in and the chain stays one chain, at the head and elsewhere |
| PriorityQueue.Queue.Unlink | utils/queue.c:129-132 | the node is unlinked and the chain stays one chain |
| PriorityQueue.Queue.PopById | utils/queue.c:121-143 | exactly the entry with that id leaves, its waiting time is counted, and its data is returned |
| PriorityQueue.Queue.PeekById | utils/queue.c:145-157 | the node of that id is found exactly if the id is queued |
| PriorityQueue.Queue.Pop | utils/queue.c:159-176 | the entry with the least id leaves, its waiting time is counted |
| PriorityQueue.Queue.Assign | req_rsp_mock/src/abstracts/defs.c:258 | writing through a peeked pointer changes the one entry and keeps order, ids and times |
| PriorityQueue.Queue.UpdateStats | utils/queue.c:26-41 | an extreme size is recorded with id and time when it is exceeded |
| PriorityQueue.Queue.UpdateServiceStats | utils/queue.c:43-46 | waiting time and number of the entries served add up |
| PriorityQueue.Queue.GetIncNextEventId | utils/queue.c:218-220 | ids are consecutive and wrap at 2^32 |
| QueueSpec.PresentWhereItBelongs | utils/queue.c:96-109 | in a sorted list an id is present if and only if it is where it belongs |
| QueueSpec.InsertSorted | utils/queue.c:104-115 | inserting there keeps the list strictly ascending |
| QueueSpec.InsertAsMap | utils/queue.c:111-118 | as a finite map, inserting binds the id and nothing else |
| QueueSpec.RemoveAsMap | utils/queue.c:128-135 | as a finite map, removing unbinds the id and nothing else |
| QueueSpec.UpdateAsMap | req_rsp_mock/src/abstracts/defs.c:258 | as a finite map, writing an entry's data rebinds its id and nothing else |
| QueueSpec.LittlesLaw | utils/queue.c:43-46 | over any run, whatever the clock readings, waiting time served plus waiting time so far of what is queued is the time integral of the size; served plus queued is what was added |
| QueueSpec.ExtremesRecorded | utils/queue.c:26-41 | after any run the extremes are those of all sizes passed through, each with the operation that reached it first |
| QueueSpec.ExtremesFromNew | utils/queue.c:17-41 | after a run that changed a new queue, the least size recorded is the first least of the sizes passed through, and the greatest the first greatest, each with the operation that reached it |
| QueueSpec.LittlesLawFromNew | utils/queue.c:43-57 | of a new queue: what was added was served or is queued, and all waiting together is the time integral of the size |
| QueueSpec.TouchedIdMoves | utils/queue.c:117-134 | the id recorded with a size is that of the entry which came or went |
| MapQueue.PoppedData | utils/queue.c:159-176 | `pop` takes the least id of the finite map |
| TombstoneMap.Map.constructor | utils/map.c:6-23 | a new map binds nothing |
| TombstoneMap.Map.InsertRaw | utils/map.c:47-82 | a key is bound exactly if it was not, in the first slot of its probe that is not allocated, tombstone or unused; every other slot stays as it is |
| TombstoneMap.Map.SlotFor | utils/map.c:53-72 | with an unused slot left, the loop meets the key exactly if it is bound, and otherwise comes to that slot, never round to its start |
| TombstoneMap.Map.Probe | utils/map.c:120-133 | the loop of `find` and `erase` meets the key's entry exactly if the key is bound |
| TombstoneMap.Map.ResizeIfNeeded | utils/map.c:25-45 | the table doubles exactly when loaded, keeps every binding, drops all tombstones, and leaves an unused slot |
| TombstoneMap.LoadedMeans | utils/map.c:26 | loaded means that the load factor, tombstones included, has reached the threshold |
| TombstoneMap.Map.CopyFrom | utils/map.c:36-41 | the rehash loop inserts every entry once, always with an unused slot left |
| TombstoneMap.Map.Insert | utils/map.c:84-87 | on the finite map: a bound key is refused, another is bound, nothing else changes |
| TombstoneMap.Map.Erase | utils/map.c:89-114 | on the finite map: the value of a bound key is returned and the key unbound; NULL for an unbound one |
| TombstoneMap.Map.Find | utils/map.c:116-137 | the bound value, or NULL |
| TombstoneMap.Map.IsMapEmpty | utils/map.c:139-141 | the allocated count is zero exactly if nothing is bound |
| TombstoneMap.Map.GrowthBound | utils/map.c:25-45 | after n successful inserts, however mixed with erases and duplicates, neither the size (beyond the first) nor all slots scanned by rehashes exceed 2n/threshold |
| MapSpec.PassedIsAbsent | utils/map.c:120-133 | a probe that met an unused slot, or went all the way round, proves the key unbound |
| MapSpec.HashIs | utils/map.c:48 | the hash is what the 64-bit product of key and seed leaves over when divided by the size |
| MapSpec.ProbeEnds | utils/map.c:53-70 | while an unused slot is left no probe goes all the way round |
| MapSpec.InsertRepresents | utils/map.c:72-78 | taking a tombstone or unused slot on the key's probe keeps every other entry reachable |
| MapSpec.EraseRepresents | utils/map.c:100-104 | leaving a tombstone keeps every other entry reachable |
| MapSpec.CountAll | utils/map.c:25-26 | allocated and freed slots together are all slots exactly if none is unused |
| TombstoneMap.FillUp | utils/map.c:84-87 | between calls the table may be completely full: n inserts into a table of n slots fill it, unless it is already loaded with n - 1; so five inserts fill the size and threshold the reactors use |
| CxtMgr.Manager.constructor | CGenericsProposal/src/CxtMgr.lf:92-97 | all slots start free |
| CxtMgr.Manager.OnRequest | CGenericsProposal/src/CxtMgr.lf:99-111 | the first free slot takes the request under its tag, or the request is dropped and the table unchanged |
| CxtMgr.Manager.OnResponse | CGenericsProposal/src/CxtMgr.lf:113-124 | the first slot with the tag is freed and the answer passed on, or the table is unchanged |
| CxtMgr.Program.Ask | CGenericsProposal/src/CxtMgr.lf:71-144 | a tick of the timer is the system's asking step: if a slot is free, one event is scheduled, due after the drawn delay, for counter and 42 under the tag of the tick; otherwise none |
| CxtMgr.Program.Answer | CGenericsProposal/src/CxtMgr.lf:76-82 | a service event is the system's answering step |
| CxtMgr.Program.React | CGenericsProposal/src/CxtMgr.lf:150-152 | the program stays in reachable states of the system |
| CxtMgr.ReachableKeeps | CGenericsProposal/src/CxtMgr.lf:99-144 | the system's invariant holds in every reachable state |
| CxtMgr.SlotsMatchFlights | CGenericsProposal/src/CxtMgr.lf:99-124 | slots in use and calls in flight correspond one to one |
| CxtMgr.AnswersRight | CGenericsProposal/src/CxtMgr.lf:113-148 | "not found" never happens, every answer is its context plus 42, none comes twice, and every request is answered, in flight or dropped |
| CxtMgr.AskTakesASlot | CGenericsProposal/src/CxtMgr.lf:71-111 | a request takes one free slot and adds one event, due at now + delay, or, with no slot free, is dropped and changes nothing else |
| CxtMgr.AnswerEndsOneFlight | CGenericsProposal/src/CxtMgr.lf:76-124 | the answer to request k ends its one event, frees its one slot, tells the client k + 42, and changes nothing else |
| CxtMgr.DueInTime | CGenericsProposal/src/CxtMgr.lf:71-75 | the event for request k is due between k * period + minDelay and k * period + maxDelay |
| CxtMgr.AnswerIsInTime | CGenericsProposal/src/CxtMgr.lf:71-75 | an answer comes within those limits |
| CxtMgr.AnsweredInTime | CGenericsProposal/src/CxtMgr.lf:99-124 | if slots * period > maxDelay, every request has its answer once the longest delay is over |
| CxtMgr.TimeProgresses | CGenericsProposal/src/CxtMgr.lf:126-149 | every step lets time pass or leaves less to happen before it can, so no run stays at one time for ever |
| CxtMgr.NeverStuck | CGenericsProposal/src/CxtMgr.lf:126-149 | in every reachable state something can happen |
| CxtMgr.OccupancyBound | CGenericsProposal/src/CxtMgr.lf:71-111 | at most maxDelay / period + 1 slots are ever in use |
| CxtMgr.OverflowExactly | CGenericsProposal/src/CxtMgr.lf:100-110 | some run drops a request if and only if slots * period <= maxDelay |
| CxtMgr.NeverOverflows | CGenericsProposal/src/CxtMgr.lf:73 | with 10 slots, 100 ms and at most 499 ms nothing is dropped and at most 5 slots are used |
| MacReactors.UidCounter.FetchAdd | RequestResponse/request_response.hh:29-31 | consecutive uids, wrapping at 2^64 |
| MacReactors.NewRequest | RequestResponse/request_response.hh:29-31 | constructing a request from data takes the next uid of its type |
| MacReactors.ContextManager.RequestIn | RequestResponse/ContextManager.lf:16-21 | the context is stored under the request's uid, and the request passed on as it is |
| MacReactors.ContextManager.ResponseIn | RequestResponse/ContextManager.lf:23-27 | the response comes out with the context stored for its uid, or with a default one, which is then entered |
| MacReactors.DelayedService.OnRequest | RequestResponse/MultiplyService.lf:13-16 | a request becomes one pending event |
| MacReactors.DelayedService.OnQueued | RequestResponse/MultiplyService.lf:18-22 | one pending event is taken and answered with its uid and its product or sum |
| MacReactors.Program.Timer | RequestResponse/MAC.lf:64-71 | the client asks for n, n + 1 and n + 2 under the next uid, with the data as the context |
| MacReactors.Program.ClientStore | RequestResponse/ContextManager.lf:16-21 | the client's context manager stores the data of a request |
| MacReactors.Program.Split | RequestResponse/MAC.lf:29-34 | the product is asked for under a new uid with the original request as the context |
| MacReactors.Program.MulDone | RequestResponse/MAC.lf:36-41 | the sum is asked for under a new uid with the same original request as the context |
| MacReactors.Program.AddDone | RequestResponse/MAC.lf:43-47 | the answer goes out under the original request's uid |
| MacReactors.Program.ClientRecall | RequestResponse/ContextManager.lf:23-27 | the client's context manager recalls the data of a response |
| MacReactors.Program.Print | RequestResponse/MAC.lf:73-78 | the result the client prints is the response with its recalled data |
| MacReactors.Program.React | RequestResponse/MAC.lf:84-98 | any enabled reaction is a step of the model, so the program stays in its reachable states |
| Mac.ReachableKeeps | RequestResponse/MAC.lf:15-82 | the pipeline's invariant holds in every reachable state |
| Mac.StageMoves | RequestResponse/ContextManager.lf:16-27 | a step inside a stage neither copies a message nor drops any but the one whose event is lost |
| Mac.StageDrains | RequestResponse/MultiplyService.lf:13-22 | every step inside a stage moves a message on, or loses one: less is left to do |
| Mac.PairUids | RequestResponse/MAC.lf:29-41 | uids of pair requests are handed out one by one, at exactly two places |
| Mac.ResultsRight | RequestResponse/MAC.lf:73-78 | every result has the uid of an issued request, that request's data as its context, and factor1 * factor2 + summand as its value; no uid has two results |
| Mac.ResultsAre | RequestResponse/MAC.lf:64-78 | the n-th question, from 0, is n * (n + 1) + (n + 2), so the result under uid u has the value (u - 1) * u + (u + 1) |
| Mac.LookupsSucceed | RequestResponse/ContextManager.lf:23-27 | no response reaches a context manager that does not know its uid |
| Mac.EachInOnePlace | RequestResponse/MAC.lf:84-98 | every issued request is in exactly one place of the pipeline, or was answered or lost once |
| Mac.AllAccountedFor | RequestResponse/MAC.lf:84-98 | when the pipeline is empty, a request was lost exactly if it has no result |
| Mac.StepDrains | RequestResponse/MAC.lf:29-82 | every reaction but the client's timer leaves less to do |
| Mac.StuckIsIdle | RequestResponse/MAC.lf:15-82 | while uids are left, some reaction can move a request on unless nothing is under way |
| Mac.DrainedIsAnswered | RequestResponse/MAC.lf:64-78 | when nothing can move on, every request whose event was not lost has its result, with the right value |
| Mac.DrainBounded | RequestResponse/MAC.lf:29-82 | a run without the timer is no longer than the work at its start |
| Mac.DrainCompletes | RequestResponse/MAC.lf:29-82 | from every reachable state there is such a run, without a loss, until nothing is under way or the uids are used up |
| SentinelMap.HashMap.constructor | tracing/include/core/utils/impl/hashmap.h:98-116 | all cells and the guard are free, whatever memory held |
| SentinelMap.HashMap.GetIdealAddress | tracing/include/core/utils/impl/hashmap.h:70-75 | the ideal cell is never the guard |
| SentinelMap.HashMap.Scan | tracing/include/core/utils/impl/hashmap.h:86-89 | a scan ends, at the first free cell or the key's, at the guard at the latest |
| SentinelMap.HashMap.GetActualAddress | tracing/include/core/utils/impl/hashmap.h:83-94 | NULL if and only if the key is absent and the table full; otherwise a cell, never the guard, with only other keys before it on the key's probe |
| SentinelMap.HashMap.Put | tracing/include/core/utils/impl/hashmap.h:123-129 | the key is bound and nothing else changes, unless the key is absent and the table full; the guard stays free |
| SentinelMap.HashMap.Get | tracing/include/core/utils/impl/hashmap.h:131-135 | the bound value of a key that is present; for another a crash exactly if the table is full |
| SentinelMap.EndFindsKey | tracing/include/core/utils/impl/hashmap.h:86-93 | a search ends at the key exactly if the key is bound |
| SentinelMap.WriteRepresents | tracing/include/core/utils/impl/hashmap.h:123-129 | writing a key where its search ended keeps every other key where its own search finds it |
| SentinelMap.FullCount | tracing/include/core/utils/impl/hashmap.h:50-52 | the table is full exactly if it has as many bindings as cells |

## Left out

- Draining.EndsByStop: that every request is answered before the runtime ends is not claimed; the client requests the stop at the first batch response after its last request was issued, and the runtime then cuts off what is left. Completion is stated for runs that go on until nothing is enabled.
- Base.Program: the payload fields cache_id, ctrl_id, ts and the length 1 of a sub-request, which are copied and logged and decide nothing, are not modelled.
- Base.Program: several `fetch_page` events or triggers at one tag are taken one at a time, as separate tags; how the runtime queues events is not part of this model.
- Base.Program.React: that the queue functions read the one logical clock is modelled by a clock reading per reaction; the contracts above the queues do not repeat the queues' statistics, for which see `PriorityQueue` and `QueueSpec`.
- PriorityQueue.Queue.UpdateServiceStats: the number served, the total waiting time and the size do not wrap.
- PriorityQueue.Queue.PEnqueue: the data is a value with the id apart; a caller that changes the id word of queued data, or queues one block of memory twice, is not modelled.
- Plain `enqueue`, `peek`, `display` and `dump_map`: no modelled reactor uses them, and `enqueue` mixed with `p_enqueue` would break the order.
- TombstoneMap.Map.ResizeIfNeeded: the load threshold is a real number and the size unbounded, not a double and a 64-bit word.
- SentinelMap.HashMap.Put: num_entries, which the code never updates, is not modelled.
- CxtMgr.AnswersRight: int overflow of the counter and the sum is not modelled; every scheduled event is delivered at its due time, in any order among those due together; the 1 s timeout only cuts runs short.
- MacReactors.Program.React: the order of reactions within a tag is not modelled; that a port is free when a reaction writes it is taken as given; reactions may otherwise interleave in any way.
- Mac.ResultsRight: int overflow of products and sums is not modelled; events may be lost, so each request is answered at most once.
- Allocation failure, freeing, names, logging and the per-connector statistics printed at shutdown.
- The reactor runtime, the converters, the view model, the tracing relays and the syntax proposals.
