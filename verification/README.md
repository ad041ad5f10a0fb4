# WebROaR in Dafny

WebROaR is a web application server: a single-threaded "head" process accepts HTTP requests, resolves them
to applications and hands them to forked worker processes over SCGI; an admin panel and an analyzer collect
profiles of what the workers did. These Dafny modules describe the parts of it that keep state and prove what
they promise, for every input and every run.

| module | what it describes |
|---|---|
| `RingQueue` | the bounded ring queue under the dispatcher |
| `DispatchModel`, `DispatchSafety`, `DispatchRuns`, `DispatchTheorems` | one application of the head as a machine whose steps are the event-loop callbacks, its invariant, and the theorems about all runs |
| `DispatchEffects` | what each callback does, told by the queues and fields alone, and the theorems about runs that rest on it |
| `Dispatcher` | the same callbacks on the heap, over worker and request objects and four ring queues; each one is proved to take exactly the step of `DispatchModel` |
| `DispatcherRun` | the event loop that calls these callbacks back, one after the other, on the objects its watchers point at |
| `ScgiFormat`, `ScgiRoundTrip` | the SCGI message format, and that what is built is read back |
| `Scgi` | the C builder, sender and parser, in place on a growing buffer |
| `WorkerReader` | how a worker collects a request from reads of any sizes and serves its body |
| `ScgiRuby` | the second, incremental implementation of SCGI, and that both agree |
| `YamlTree`, `YamlParser` | the tree builder for YAML event streams, as an event machine and on linked nodes |
| `RubyHash`, `Profiler`, `Samples` | exclusive times on a stack, and the samples the analyzer keeps in memory and in the database |
| `Resolver` | routing by base URI and host pattern |
| `Configurator` | removal of duplicate base URIs from the linked list of applications |
| `Connection` | the chunk list of a response and its one outstanding write, over everything that happens to a connection |
| `Seqs` | facts about sequences that several modules share |

How to read it. Code that changes state is a class with methods; each method says what the new state is as a
function of the old one, and lemmas say what that function guarantees. The dispatcher has two levels: `App` in
`DispatchModel` is a value, `Step` is one callback with everything that depends on the outside world (which
worker acts, which pids `fork` and `ps` yield, whether a socket opens) carried by the event, and a run is any
sequence of events that the outside world can raise. `Dispatcher.Application` carries such a value as ghost
state, and `DispatcherRun.Serve` takes the objects through any possible sequence of callbacks: afterwards they
spell out the state that the machine's run ends in, so that the theorems about runs hold of the heap.

Where the code and its own comments disagree, the model follows the code:

- Pending plus registered workers can exceed `max_worker`, in two ways: a reload forks on top of a pool that is
  already full (`DispatchTheorems.ReloadCanExceed`), and the first registration after a reload puts a smaller
  limit in force while workers are still busy (`DispatchTheorems.RegistrationCanExceed`).
  `DispatchTheorems.ExceedsExactly` gives the exact condition for one step from any state within the limit, and
  `DispatchTheorems.WithinExactly` for whole runs: a run stays within the limits in force if and only if none of
  its steps is of these two kinds. Without reloads none is.
- The C parser drops a body of a single byte. `ScgiRoundTrip.RoundTrip` states exactly which messages survive.
  The worker is not affected, because it hands only the header packet to that parser.
- In a YAML sequence, a collection that follows a scalar becomes the child of that scalar's node, and an empty
  collection is one blank node; `YamlTree.Tree` says so, for all documents with scalar keys.
  `YamlTree.NaturalIfPlain` proves that these are the only two departures from one node per pair or item.
- The pass that removes duplicate base URIs removes by name, but the start-up reading of the configuration accepts
  repeated names. `Configurator.WrongOneGoes` is a list on which the wrong application goes, and
  `Configurator.PassSurvives` says for which lists exactly the intended ones remain, among them every list of
  distinct names (`Configurator.DistinctNamesAllow`).
- Base URIs are compared by hash. `Resolver.CollidingSegments` has two first segments with one hash and
  `Resolver.ReservedSegment` one with the hash that is reserved for the root; `Resolver.Table.SegmentDecides` says
  when looking up by hash is looking up by first segment.
- Several applications may have the root as their base URI, since nothing checks base URIs when an application is
  added at run time. When the one that is the default goes, the others do not take its place:
  `Resolver.RootUnanswered` is such a run, and `Resolver.UnansweredExactly` says when it happens.
- When a newer message replaces a URL sample, the old sample is stamped with the time of the new message and
  not with the end of its own period (`src/admin_panel/app/models/url_time_sample.rb:259-261`); an application
  sample is stamped with the end of its period. The sums are not affected.
- `write_all_samples` leaves the samples in memory. What is proved is that afterwards the database alone holds
  everything; the method is meant for shutdown.
- A rendering time is reduced by database calls made while rendering. `Profiler.RequestAccounts` needs no
  restriction on how renders and database calls are nested.

## Model

| member | source | states |
|---|---|---|
| RingQueue.Queue.constructor | src/helper/wr_queue.c:23-36 | a new queue is empty and has the requested capacity |
| RingQueue.Queue.Insert | src/helper/wr_queue.c:38-52 | appends, or refuses and changes nothing exactly when the queue is full; front and rear are -1 exactly when it is empty, else rear is the cell count - 1 behind front in the ring |
| RingQueue.Queue.Fetch | src/helper/wr_queue.c:54-68 | takes the head and keeps the order of the rest, null when empty; the macro in src/helper/wr_queue.h does the same |
| RingQueue.Queue.Remove | src/helper/wr_queue.c:70-98 | deletes the first occurrence of the element and nothing else, order kept, also when the gap lies across the wrap point; reports whether there was one |
| Seqs.WithoutAt | src/helper/wr_queue.c:70-98 | what deleting the first occurrence means: the sequence with the gap closed |
| DispatchSafety.InvFacts | src/head/wr_application.c:385-400 | what the code relies on without looking: no queue holds anything twice, and the workers known are those in the worker queue |
| DispatchSafety.IdleHasRoom | src/head/wr_worker.c:180-208 | the insert into the free queue whose result is ignored always finds room |
| DispatchSafety.AllocateKeeps | src/head/wr_worker.c:180-208 | a worker without a request takes the oldest waiting one or becomes idle; the invariant is restored |
| DispatchSafety.RespondKeeps | src/head/wr_worker.c:210-220 | finishing a response keeps the invariant: the worker is allocated again, or leaves if it has expired |
| DispatchSafety.PingTimerKeeps | src/head/wr_worker.c:474-488 | a wait timer firing keeps the invariant, whether it pings, gives the worker up or frees an expired one |
| DispatchSafety.CompleteKeeps | src/head/wr_request.c:444-475 | admission keeps the invariant: a request is queued and dispatched, or refused because the queue is full |
| DispatchSafety.AbortKeeps | src/head/wr_connection.c:310-330 | a request that fails while it waits leaves the message queue, is recorded as failed, and no worker, idle queue or pending pid changes; the invariant holds |
| DispatchRuns.RenewKeeps | src/head/wr_application.c:311-347 | a reload that takes effect keeps the invariant |
| DispatchRuns.RenewOutcome | src/head/wr_application.c:311-347 | it frees exactly the idle workers, the busy ones keep their requests and expire, and no request is finished by it |
| DispatchRuns.RegisterKeeps | src/head/wr_worker.c:625-684 | a registration keeps the invariant, with and without a restart under way |
| DispatchRuns.AddTimeoutKeeps | src/head/wr_application.c:141-192 | the add timeout keeps the invariant on the last trial, before it and after it |
| DispatchRuns.RemoveTimerKeeps | src/head/wr_application.c:194-309 | under low load exactly one worker with the reported pid is dealt with if there is one: an idle one goes, a busy one keeps its request and expires; otherwise nothing changes; the invariant holds |
| DispatchRuns.DestroyKeeps | src/head/wr_application.c:441-482 | destroying the application adds failures only and leaves nothing waiting or in service; every admitted request is then finished, once |
| DispatchRuns.TakenIsPermutation | src/head/wr_application.c:44-53 | the rotating search takes out one pid and leaves all the others |
| DispatchRuns.InitialInv | src/head/wr_application.c:380-438 | a new application satisfies the invariant |
| DispatchRuns.StepKeeps | src/head/wr_worker.c:33-135 | every event that the outside world can raise keeps the invariant |
| DispatchRuns.RunKeeps | src/head/wr_worker.c:33-135 | so does every run |
| DispatchTheorems.AlwaysInv | src/head/wr_application.c:380-438 | the invariant holds after every run of a newly added application |
| DispatchTheorems.EveryWorkerIdleOrBusy | src/head/wr_worker.c:33-219 | each registered worker is INACTIVE without a request and once in the free queue, or in service with exactly one request and not in it; its trials never exceed ping_trials |
| DispatchTheorems.QueuesNeverOverflow | src/head/wr_application.c:391-392 | no queue exceeds its capacity, and the free queue has room for every worker that is not in it |
| DispatchTheorems.RequestsAreNotShared | src/head/wr_worker.c:165-219 | no two workers hold the same request; a held request was admitted, waits no more and is not finished |
| DispatchTheorems.NothingIsLost | src/head/wr_worker.c:744-806 | admitted = waiting + in service + finished as multisets in every reachable state, nothing finishes twice; all of it is finished once the application is destroyed |
| DispatchTheorems.ServedInOrder | src/head/wr_request.h:64-70 | requests reach workers in admission order, apart from those withdrawn while they waited |
| DispatchTheorems.NeverIdleWhileWaiting | src/head/wr_worker.c:809-842 | while a request waits, every worker holds one |
| DispatchTheorems.ExceedsExactly | src/head/wr_application.c:349-378 | from any state within the limit, a step leads past the limit in force if and only if it is a reload that finds the pool full and forks, or the first registration after a reload and the busy workers, the other pending ones and the newcomer do not fit the limit it installs |
| DispatchTheorems.WithinExactly | src/head/wr_application.c:492-512 | a run of a new application stays within the limits in force if and only if none of its steps is one of these |
| DispatchTheorems.ReloadCanExceed | src/head/wr_application.c:692-743 | a concrete run that ends with one process more than max_worker by a reload |
| DispatchTheorems.RegistrationCanExceed | src/head/wr_application.c:546-605 | a concrete run that is within the limits until the registration after a reload installs a smaller one |
| DispatchTheorems.WorkersStayWithinLimit | src/head/wr_application.c:492-512 | without reloads pending plus registered workers never exceed max_worker, in any state of any run |
| DispatchTheorems.RegistrationConsumesOnePid | src/head/wr_application.c:546-605 | a registration takes exactly one pid out of the pending queue or changes nothing; an unknown pid leaves the queue as it was, order included |
| DispatchTheorems.SilentStep | src/head/wr_worker.c:54-122 | an event that is no sign of life leaves a busy worker serving with its budget reduced by at most its own timer, or gone with its request failed |
| DispatchTheorems.SilentWorkerIsGivenUp | src/head/wr_worker.c:137-163 | ping replies do not refill the budget: once the timer has fired more often than ping_trials allows, the worker has left the pool and its request has failed |
| DispatchTheorems.GivenUpForGood | src/head/wr_worker.c:744-806 | a worker given up does not come back and its request stays failed |
| DispatchEffects.ProgressEffect | src/head/wr_worker.c:155-163 | a sign of progress: the worker keeps its request, is active again if it was being pinged, and has the whole budget of pings |
| DispatchEffects.TimerDecides | src/head/wr_worker.c:54-122 | as long as nothing but its timer takes a busy worker away, it is given up if and only if the timer fires more often than ping_trials without progress in between, whatever happens to the rest of the application |
| DispatchEffects.ProgressIsRewarded | src/head/wr_worker.c:155-163 | after a sign of progress the timer may fire ping_trials times and the worker still serves its request |
| DispatchEffects.OthersUntouched | src/head/wr_worker.c:33-135 | events that concern other workers, requests or the application change nothing about a worker in service |
| DispatchEffects.PingTimerEffect | src/head/wr_worker.c:474-488 | the wait timer: an idle worker is left alone, a busy one is pinged while its budget lasts and then given up and replaced, an expired one goes |
| DispatchEffects.PingReplyEffect | src/head/wr_worker.c:889-898 | a ping reply makes the worker active again and leaves its budget as it is |
| DispatchEffects.RegisteredExactly | src/head/wr_worker.c:625-684 | a newcomer is registered if and only if it can be reached, its pid is pending, and the pool is below its maximum or a restart is under way with room beside the busy workers; it takes the oldest request that waits or becomes idle |
| DispatchEffects.RegisterEffect | src/head/wr_application.c:546-605 | the whole effect of a registration: which pid leaves the pending queue and how it is turned, who stays under which limits, what the newcomer does, how many processes are forked |
| DispatchEffects.CompleteEffect | src/head/wr_request.c:444-475 | a request is refused if and only if the queue is full; else the worker that has been idle for longest takes it, or it waits behind all others |
| DispatchEffects.RespondEffect | src/head/wr_worker.c:210-220 | the request is recorded as served; the worker takes the oldest one that waits or becomes idle behind the others, or leaves if it has expired |
| DispatchEffects.ServedExactly | src/head/wr_worker.c:210-220 | over any run, the requests recorded as served are exactly those whose responses were completed, each once and in that order |
| DispatchEffects.BrokenEffect | src/head/wr_worker.c:744-806 | the worker leaves both queues and the request it had has failed |
| DispatchEffects.GoneEffect | src/head/wr_worker.c:868-886 | the same, and a running application makes up its minimum |
| DispatchEffects.BalanceEffect | src/head/wr_application.c:492-512 | afterwards the minimum is reached or another fork is not possible; no process more than the minimum is forked; a restart is over once the minimum is registered |
| DispatchEffects.InitialEffect | src/head/wr_application.c:380-438 | a new application has no workers, and its minimum is forked as far as that is possible |
| DispatchEffects.AddTimerEffect | src/head/wr_application.c:55-65 | one process is forked if and only if the total is below the maximum, the pending queue has room, not too many came late, and fork() succeeds |
| DispatchEffects.AddTimeoutEffect | src/head/wr_application.c:141-192 | the oldest late process is killed, after add_trials in a row all are and nothing is forked until the next one; a restart is called off, a new application is over when none is left |
| DispatchEffects.AddErrorEffect | src/head/wr_application.c:515-543 | a worker that failed to start: a restart is called off, a new application is over, else one occurrence of its pid is forgotten |
| DispatchEffects.RemoveTimerEffect | src/head/wr_application.c:194-309 | above the minimum a worker with the reported pid goes, an idle one if there is one, else one expires; otherwise nothing changes |
| DispatchEffects.ReloadEffect | src/head/wr_application.c:692-743 | the new limits are taken down, the pending processes forgotten, the count of late ones reset, one process forked |
| DispatchEffects.RemoveAppEffect | src/head/wr_application.c:441-482 | nobody and nothing is left, and every request that was open has failed |
| Dispatcher.Application.constructor | src/head/wr_application.c:380-438 | a new application on the heap is the initial state of the machine |
| Dispatcher.Application.StateMachine | src/head/wr_worker.c:33-135 | one worker, one action: the step of the machine, for every state and action |
| Dispatcher.Application.Allocate | src/head/wr_worker.c:180-208 | hands over the oldest request or queues the worker as idle |
| Dispatcher.Application.ReqProcessing | src/head/wr_worker.c:165-178 | links worker and request in both directions |
| Dispatcher.Application.WkrFree | src/head/wr_worker.c:744-806 | takes the worker out of both queues and fails the request it holds |
| Dispatcher.Application.DispatchReq | src/head/wr_worker.c:809-842 | pops both queues or neither |
| Dispatcher.Application.OnComplete | src/head/wr_request.c:444-475 | takes the machine's step for a completely received request |
| Dispatcher.Application.OnConnError | src/head/wr_connection.c:301-330 | a failing connection withdraws a waiting request, and only marks one that its worker still uses |
| Dispatcher.Application.OnProgress | src/head/wr_worker.c:155-163 | takes the machine's step for a response that makes progress: trials are 0 again, a pinged worker is active, and it keeps its request |
| Dispatcher.Application.OnRespond | src/head/wr_worker.c:210-220 | takes the machine's step for a complete response |
| Dispatcher.Application.OnBroken | src/head/wr_worker.c:222-262 | takes the machine's step for a broken worker connection |
| Dispatcher.Application.OnPingTimer | src/head/wr_worker.c:474-488 | takes the machine's step for a wait timer |
| Dispatcher.Application.OnPingReply | src/head/wr_worker.c:889-898 | takes the machine's step for a ping reply |
| Dispatcher.Application.OnGone | src/head/wr_worker.c:868-886 | takes the machine's step for a worker that leaves |
| Dispatcher.Application.OnRegister | src/head/wr_worker.c:625-684 | takes the machine's step for a worker's ADD; reports success exactly when the worker can be reached, its pid is pending and there is room for it, and then it is a new registered object |
| Dispatcher.Application.PendingWorkerExist | src/head/wr_application.c:44-53 | one turn of the pending queue: rotates it fully if the pid is unknown, else stops behind the pid it takes out |
| Dispatcher.Application.WkrInsert | src/head/wr_application.c:546-605 | accepts a newcomer exactly when its pid is pending and the pool is below its maximum or a restart is under way |
| Dispatcher.Application.WkrAdd | src/head/wr_application.c:349-378 | forks at most one process and queues its pid |
| Dispatcher.Application.WkrBalance | src/head/wr_application.c:492-512 | forks until the minimum is reached or a fork fails |
| Dispatcher.Application.AppReload | src/head/wr_application.c:311-347 | frees the idle workers and marks the rest by one turn of the worker queue, order kept |
| Dispatcher.Application.AppFree | src/head/wr_application.c:441-482 | drains both queues as the machine's destruction does |
| Dispatcher.Application.KillPendingWkr | src/head/wr_application.c:67-83 | takes the oldest pending pid or all of them |
| Dispatcher.Application.OnAddTimer | src/head/wr_application.c:55-65 | takes the machine's step for the add timer |
| Dispatcher.Application.OnAddTimeout | src/head/wr_application.c:141-192 | takes the machine's step for the add timeout |
| Dispatcher.Application.OnAddError | src/head/wr_application.c:515-543 | takes the machine's step for a worker that failed to start |
| Dispatcher.Application.OnRemoveTimer | src/head/wr_application.c:194-309 | takes the machine's step for the remove timer, for any pid that ps reports |
| Dispatcher.Application.OnReload | src/head/wr_application.c:692-743 | takes the machine's step for a reload request |
| Dispatcher.Application.OnRemoveApp | src/head/wr_application.c:680-690 | takes the machine's step for the removal of the application |
| DispatcherRun.EventLoop.Turn | src/head/wr_worker.c:33-135 | from any consistent state of the objects, one occurrence of any kind takes them through the machine's step; they stay consistent, and only new objects join them |
| DispatcherRun.HeapBalanced | src/head/wr_worker.c:744-806 | on the objects: the requests admitted are those in the message queue, those that workers point at, and those finished, each once |
| DispatcherRun.HeapAtWork | src/head/wr_worker.c:165-219 | on the objects: a worker without a request is in the free queue; one with a request is not, and the request points back at it and is marked as in use |
| DispatcherRun.Serve | src/head/wr_application.c:380-438 | after any sequence of callbacks on a new application the objects spell out the end of the machine's run: nothing is lost, no worker is free while a request waits, everything is finished once the application is destroyed, and the queues keep to the limit in force if no event was an exceeding one |
| ScgiFormat.AtoiDecimal | src/helper/wr_scgi.c:117-127 | atoi undoes the decimal print, whatever follows the number |
| ScgiFormat.IntHasTenDigits | src/helper/wr_scgi.c:200-222 | a printed int has at most ten digits, which is why the prefix fits the reserved bytes |
| ScgiRoundTrip.NetstringLength | src/helper/wr_scgi.c:200-222 | the netstring length is exactly the distance from the colon to the comma that ends the headers; CONTENT_LENGTH comes first and the body follows the comma |
| ScgiRoundTrip.ScanBlock | src/helper/wr_scgi.c:300-345 | a block of clean headers is read in one pass, newest first, each as it was written |
| ScgiRoundTrip.ParseFindsClean | src/helper/wr_scgi.c:265-357 | whatever the bytes, names and values found contain no delimiter and the body is never a single byte |
| ScgiRoundTrip.RoundTrip | src/helper/wr_scgi.c:265-357 | a built message is parsed back to the same headers, newest first and CONTENT_LENGTH last, and the same body if and only if every header has a value, no name holds NUL or comma, no value holds NUL and the body is not one byte long |
| ScgiRoundTrip.OnTheWire | src/helper/wr_scgi.c:200-222 | the bytes of a small message |
| ScgiRoundTrip.ShapedIsParsed | src/helper/wr_scgi.c:265-357 | digits, a colon, headers, bytes that start no header, a comma and a body are parsed to these headers and this body, unless that is a single byte |
| ScgiRoundTrip.ParsedIsShaped | src/helper/wr_scgi.c:265-357 | whatever is parsed has this shape; all other bytes are refused |
| ScgiRoundTrip.LookupSurvives | src/helper/wr_scgi.c:393-407 | looking a field up gives the same value before building and after parsing |
| Scgi.ChunksMakeOneHeader | src/helper/wr_scgi.c:148-197 | a name and a value that arrive in any pieces make one header: the value as it is; the name with '_' for each '-', the capital for each letter, every other byte as it is |
| Scgi.UserAgent | src/helper/wr_scgi.c:173-175 | "User-Agent" becomes "USER_AGENT" |
| Scgi.Message.constructor | src/helper/wr_scgi.c:47-66 | a new message holds the SCGI header and nothing else |
| Scgi.Message.MemoryCheck | src/helper/wr_scgi.c:68-81 | grows by whole blocks, keeps every byte, and always leaves two bytes behind the write offset's limit |
| Scgi.Message.HeaderAdd | src/helper/wr_scgi.c:84-114 | the buffer encodes one header more and the list says where it is |
| Scgi.Message.HeaderFieldAdd | src/helper/wr_scgi.c:148-177 | the bytes in front of the write offset are the piece with '_' for '-' and capitals, and a NUL; list and buffer change as for the same piece added to the abstract list; fails if the index has passed or the header has its value |
| Scgi.Message.HeaderValueAdd | src/helper/wr_scgi.c:180-197 | the piece of a value starts or continues the value of the newest header; fails if the index is not that header's |
| Scgi.Message.ContentLengthAdd | src/helper/wr_scgi.c:117-127 | filled in backwards, the CONTENT_LENGTH pair ends where the headers begin and stays within the reserved bytes |
| Scgi.Message.Build | src/helper/wr_scgi.c:200-222 | from start offset to header offset the buffer is the complete netstring of the headers added |
| Scgi.Message.Send | src/helper/wr_scgi.c:225-243 | offers the rest of the header packet, then the rest of the body, and advances by what the socket takes |
| Scgi.ShortWrites | src/helper/wr_scgi.c:225-243 | any short writes emit header bytes then body bytes, nothing skipped or repeated, and nothing is offered any more exactly when all has been sent |
| Scgi.ScgiParse | src/helper/wr_scgi.c:265-357 | the loop over a state variable computes the grammar's parse, for every buffer |
| WorkerReader.AnnouncedSize | src/worker/wkr_http_request.c:197-217 | as soon as the colon has been read, the bytes so far give the exact size of the header packet, however few they are |
| WorkerReader.HeaderParses | src/worker/wkr_http_request.c:219-232 | the header packet alone parses, and its length field is the length of the body |
| WorkerReader.HttpReq.Asked | src/worker/wkr_http_request.c:302-306 | the worker asks recv for what fits the buffer until the header packet is complete, then for the rest of the message, at most a buffer at a time if it goes to a file; never for nothing, provided that the header packet fits the buffer |
| WorkerReader.HttpReq.OnReadable | src/worker/wkr_http_request.c:173-194 | whatever part of the message a read delivers, nothing is written past the buffer and processing has started if and only if the last byte is in |
| WorkerReader.HttpReq.HeaderCb | src/worker/wkr_http_request.c:291-322 | the header callback keeps what has been received in the buffer, as it was sent |
| WorkerReader.HttpReq.ParseReqBuf | src/worker/wkr_http_request.c:197-217 | the header packet's size is set once, from the first read that shows the colon |
| WorkerReader.HttpReq.HeaderComplete | src/worker/wkr_http_request.c:219-288 | after the header packet: start at once, go on in the buffer, or go on in a file that holds what has arrived of the body |
| WorkerReader.HttpReq.ReadInBuff | src/worker/wkr_http_request.c:113-137 | body bytes go behind the header packet |
| WorkerReader.HttpReq.ReadInFile | src/worker/wkr_http_request.c:140-171 | body bytes go to the end of the file, which is rewound when it is complete |
| WorkerReader.HttpReq.BodyRead | src/worker/wkr_http_request.c:72-110 | reads of any sizes, laid end to end, are the body, from buffer or file; a short read means the body is used up |
| WorkerReader.HttpReq.Set | src/worker/wkr_http_request.c:55-66 | the object is ready for the next message |
| WorkerReader.Deliver | src/worker/wkr_http_request.c:291-322 | under every schedule of reads the request is started exactly once and the application is given exactly the body |
| ScgiRuby.SplitAnywhere | src/admin_panel/lib/scgi.rb:93-149 | for all bytes: parsing one piece and then another is parsing both at once, as long as the first did not complete the message |
| ScgiRuby.ConsumePrefix | src/admin_panel/lib/scgi.rb:93-149 | a proper prefix of a message leaves the parser waiting, the whole message completes it with its headers and body |
| ScgiRuby.AnySplit | src/admin_panel/lib/scgi.rb:93-149 | however a message is cut, the parser is done exactly at the last byte |
| ScgiRuby.RubyReads | src/admin_panel/lib/scgi.rb:93-149 | whatever digits, headers and bytes: the headers are kept, what follows the comma is the body if a length is announced, and it is complete if it is exactly as long |
| ScgiRuby.RubyRefuses | src/admin_panel/lib/scgi.rb:99-102 | after a byte that is no digit in front of the colon nothing is ever read |
| ScgiRuby.RubyRoundTrip | src/admin_panel/lib/scgi.rb:69-81 | what build writes, cut into any chunks, is read back: the body, and the caller's pairs on top of the two that build adds |
| ScgiRuby.ParsersAgree | src/helper/wr_scgi.c:265-357 | for upper-case names and no CONTENT_LENGTH of the caller, every lookup gives the same answer in both parsers; the bodies agree if and only if the body is not one byte long |
| ScgiRuby.SCGI.HeaderAdd | src/admin_panel/lib/scgi.rb:54-56 | the pair is stored under the key with each letter replaced by its capital |
| ScgiRuby.SCGI.Build | src/admin_panel/lib/scgi.rb:69-81 | in whatever order the hash is walked, the result is a message in the common format with all pairs once |
| ScgiRuby.SCGI.Parse | src/admin_panel/lib/scgi.rb:93-149 | one call takes the parser from its state to the state after that chunk, for every chunk |
| YamlTree.PopsExactlyTheMembers | src/helper/wr_yaml_parser.c:58-68 | at the end of a collection the popping loop chains exactly the members of that collection, in order |
| YamlTree.CollectionRun | src/helper/wr_yaml_parser.c:105-151 | the events of a nested collection, started in any surroundings, leave one completed member that holds its tree |
| YamlTree.DocumentRun | src/helper/wr_yaml_parser.c:105-163 | for every document with scalar keys, the event machine ends with exactly the recursively defined tree, an empty stack and level 0 |
| YamlTree.NaturalIfPlain | src/helper/wr_yaml_parser.c:105-163 | the tree has one node for each pair and item and none for an empty collection if and only if no collection is empty and in no sequence a collection follows a scalar |
| YamlTree.SmallTrees | src/helper/wr_yaml_parser.c:48-96 | the trees of a pair, of a collection that follows a scalar, and of empty collections |
| YamlParser.Builder.CreateChildNode | src/helper/wr_yaml_parser.c:48-56 | on the heap: the machine's step for the start of a collection |
| YamlParser.Builder.CreateScalarNode | src/helper/wr_yaml_parser.c:81-96 | on the heap: the machine's step that makes a scalar node |
| YamlParser.Builder.SetSiblingNodes | src/helper/wr_yaml_parser.c:58-79 | on the heap: the machine's step for the end of a collection; comparing pointers decides as the machine does |
| YamlParser.Builder.Handle | src/helper/wr_yaml_parser.c:111-148 | one event takes the linked nodes through the machine's step, for every event stream |
| YamlParser.YamlParse | src/helper/wr_yaml_parser.c:40-178 | the root that is returned unfolds to the document's tree, for a plain document the one with a node for each pair and item; null after a libyaml error |
| Profiler.RunAccounts | src/ruby_lib/profiler/webroar_profiling.rb:106-195 | what any calls add to a profile in which they are made, whatever is on its stacks |
| Profiler.RequestAccounts | src/ruby_lib/profiler/webroar_profiling.rb:142-195 | each method is charged its own time minus that of the nearest database calls inside; the charges sum to the outermost calls' elapsed time; rendering is the outermost renders' time minus the outermost database calls inside them |
| Profiler.ThreadProfile.Perform | src/ruby_lib/profiler/webroar_profiling.rb:28-49 | the wrapped calls take the profile where the accounting says |
| Profiler.ThreadProfile.DatabaseDone | src/ruby_lib/profiler/webroar_profiling.rb:168-192 | the code behind a database call pops the stack, credits the caller and records the exclusive time |
| Profiler.ThreadProfile.RenderDone | src/ruby_lib/profiler/webroar_profiling.rb:123-132 | the code behind a render counts the outermost one only |
| Samples.MergeHash | src/admin_panel/app/models/url_time_sample.rb:218-226 | the breakup in memory gains each method's time once |
| Samples.MergeRows | src/admin_panel/app/models/url_time_sample.rb:231-249 | so do the breakup rows, existing and new ones, no method twice |
| Samples.FlatTime | src/ruby_lib/analyzer/message_analyzer.rb:91-100 | each breakup entry is the recorded time of that method of that class |
| Samples.MessageOfRequest | src/ruby_lib/analyzer/message_analyzer.rb:91-100 | from the calls of a request to its message: db_time is the outermost database calls' elapsed time and the breakup gives each method what it is charged |
| Samples.MessageAnalyzer.AddToSample | src/admin_panel/app/models/app_time_sample.rb:136-174 | the times are added once under their key and nowhere else, to the sample in memory, a row or a new sample depending on the period; a URL's db_time stays the sum of its breakup |
| Samples.MessageAnalyzer.Replace | src/admin_panel/app/models/url_time_sample.rb:258-268 | the old sample moves to the database, the new one takes its place |
| Samples.MessageAnalyzer.Breakup | src/ruby_lib/analyzer/message_analyzer.rb:91-100 | db_time is the sum of the breakup it builds |
| Samples.MessageAnalyzer.ProcessMessage | src/ruby_lib/analyzer/message_analyzer.rb:78-110 | one message more is accounted for, for its application and its URL, and for nothing else: in the sample of its period, in a new one, or in its row if it is late |
| Samples.MessageAnalyzer.ProcessMessages | src/ruby_lib/analyzer/message_analyzer.rb:72-116 | memory plus database equal what was processed for every application, URL and method, in or out of time order; a message of an unknown application is dropped, and what follows it is left for the next call |
| Samples.MessageAnalyzer.ProcessAll | src/ruby_lib/analyzer/webroar_analyzer.rb:65-70 | call after call, exactly the messages of known applications are processed, in order |
| Samples.MessageAnalyzer.WriteStaleSamples | src/admin_panel/app/models/url_time_sample.rb:275-299 | moves exactly the stale samples to the database and loses nothing |
| Samples.MessageAnalyzer.WriteAllSamples | src/admin_panel/app/models/app_time_sample.rb:198-215 | afterwards the database alone holds everything processed, and the rows of an application sum up to those of its URLs |
| Samples.AppIsSumOfUrls | src/admin_panel/app/models/url_time_sample.rb:208-272 | in every store that holds what was processed, an application's totals are the sums over its stored URLs |
| Samples.MessageAnalyzer.ApplicationTotals | src/ruby_lib/analyzer/message_analyzer.rb:72-116 | at any time, what memory and database keep for an application is the sum of what they keep for its URLs |
| Samples.MessageAnalyzer.Accounts | src/ruby_lib/analyzer/message_analyzer.rb:78-110 | column by column, for an application and for one controller and action of it: total, rendering and database time and the number of requests are the sums over exactly its messages of these fields |
| Samples.MessageAnalyzer.AccountsByMethod | src/ruby_lib/analyzer/message_analyzer.rb:91-100 | the breakup of a URL has for each method of each class the time that its messages tell for it |
| Samples.UrlSplits | src/ruby_lib/analyzer/message_analyzer.rb:86-87 | controller and action of a URL can be told apart if no action contains a slash |
| Resolver.UriHash | src/helper/wr_util.c:71-80 | djb2 of the first segment, with signed bytes and 64-bit wrap-around |
| Resolver.UriHashLen | src/helper/wr_util.c:83-90 | the same value, on a buffer and a length |
| Resolver.ContainsIsOccurrence | src/head/wr_resolver.c:287-292 | the infix pattern accepts exactly the hosts in which the name occurs |
| Resolver.Table.AddHost | src/head/wr_resolver.c:141-165 | inserts one pattern in front of the first that is not more specific, and nowhere else; the list stays sorted by kind |
| Resolver.Table.Add | src/head/wr_resolver.c:108-172 | the lists hold exactly what the listed applications ask for, the new one included; its base URI goes to the front, or makes it the default application if it has the reserved hash, and else the default stays |
| Resolver.Table.Remove | src/head/wr_resolver.c:175-232 | exactly the removed application's entries leave the lists, the others keep their order; the default stays unless it is the one removed |
| Resolver.Maintain | src/head/wr_resolver.c:108-232 | after any additions and removals the table lists the applications added and not removed, and its default is the one of `Resolver.DefaultExactly` |
| Resolver.DefaultExactly | src/head/wr_resolver.c:121-187 | over any additions and removals: the default is the root application added last, if it has not been removed since; otherwise there is none |
| Resolver.ListedRootIsDefault | src/head/wr_resolver.c:121-187 | a listed root application is the default if and only if no root application was added after it |
| Resolver.UnansweredExactly | src/head/wr_resolver.c:182-184 | with a root application listed, there is no default if and only if the root application added last has been removed since |
| Resolver.RootUnanswered | src/head/wr_resolver.c:182-184 | a run that ends with a root application listed and no default |
| Resolver.Table.Resolve | src/head/wr_resolver.c:235-319 | a path goes by base URI if and only if its first segment has the hash of a listed one, other than the reserved hash; if some base URI has that segment and no other one collides, the answer has it too; any other request goes by host pattern if one fits the host that the header names, with or without a port, and then none of a more specific kind fits; else to the default; within each list the first match wins; a removed application is never the answer |
| Resolver.HostOfHeader | src/head/wr_resolver.c:258-266 | the host of a header is the value in front of its first colon, or all of it |
| Resolver.AcceptsExactly | src/head/wr_resolver.c:268-293 | what each kind of pattern asks: that its name is the host, a proper end of it, a proper beginning, or occurs in a longer one |
| Resolver.RankIsSpecific | src/head/wr_resolver.c:141-165 | the order of the kinds: names without wildcard, with one at the start, at the end, at both |
| Resolver.KeyOfPath | src/helper/wr_util.c:71-90 | a path is looked up by its first segment, whatever follows the next slash |
| Resolver.SignedBytes | src/helper/wr_util.c:71-90 | a byte above 127 enters the hash as a negative number |
| Resolver.Table.SegmentDecides | src/head/wr_resolver.c:240-251 | for a path, base URIs found by hash are exactly those with its first segment if and only if no listed one of another segment collides or, under the reserved hash, none has that segment |
| Resolver.Table.CollisionAnswers | src/head/wr_resolver.c:240-251 | an application listed at "/Ez" is found for the path "/FY" |
| Resolver.CollidingSegments | src/helper/wr_util.c:71-90 | two different first segments with one hash |
| Resolver.ReservedSegment | src/head/wr_resolver.c:119-130 | a first segment that is not empty and has the reserved hash, so that its base URI is never listed |
| Configurator.DedupIsOnePass | src/head/wr_configurator.c:614-640 | if each removal takes the application that is meant: letting each one remove its duplicates behind it is one pass that remembers the base URIs seen |
| Configurator.DedupSurvives | src/head/wr_configurator.c:614-640 | and what remains then is the original list without reserved base URIs and without every later duplicate, in order |
| Configurator.PassSurvives | src/head/wr_configurator.c:602-643 | for every list: the pass, which removes by name, leaves exactly these if and only if no application that is to go shares its name with an earlier one that is to stay |
| Configurator.WrongOneGoes | src/head/wr_configurator.c:602-643 | a list of three on which the pass removes an application that is to stay |
| Configurator.ApplicationList.Append | src/head/wr_configurator.c:570-599 | the reading appends each application, whatever its name |
| Configurator.ApplicationList.ConfAppExist | src/head/wr_configurator.c:849-868 | the first application of that name and its predecessor |
| Configurator.ApplicationList.AppConfRemove | src/head/wr_configurator.c:933-954 | unlinks the first application of that name and clears its link, or fails and changes nothing |
| Configurator.ApplicationList.RemoveDuplicates | src/head/wr_configurator.c:625-636 | on the linked list: the inner scan with its restarts, over any list, wherever the removals by name hit |
| Configurator.ApplicationList.RemoveAppWithDupBaseuri | src/head/wr_configurator.c:602-643 | on the linked list, over any list: what the pass leaves, which is the survivors in order if and only if the names allow; -1 if and only if something was removed or the list was empty |
| Connection.StringList.Append | src/helper/wr_string.c:35-50 | the chunk goes to the end, the byte count follows |
| Connection.StringList.Remove | src/helper/wr_string.c:53-64 | the front chunk is taken, null when there is none |
| Connection.Conn.RespBodyAdd | src/head/wr_connection.c:210-233 | takes the step for a chunk: writes at once only if no write is outstanding; the writes stay the chunks in order |
| Connection.Conn.AfterWrite | src/head/wr_connection.c:75-103 | takes the step for a write that calls back: on an open connection the next chunk is written, none skipped or repeated; once no write follows and no response is due, closing is scheduled if and only if one side does not keep alive |
| Connection.Conn.OnClose | src/head/wr_connection.c:132-147 | a connection with responses to come is only marked as closed and not kept alive, any other is destroyed |
| Connection.Conn.OnAnswered | src/head/wr_request.c:571-581 | a response less is due; a closed connection goes with the last one |
| Connection.GoneWhenAnswered | src/head/wr_request.c:571-581 | a connection that is closed with responses due is destroyed with the last of them, and not before |
| Connection.WritesInOrder | src/head/wr_connection.c:75-233 | whatever happens, the chunks added before the closing are written in order, each exactly when the one in front has called back; afterwards none is taken or written |
| Connection.Converse | src/head/wr_connection.c:75-233 | on the heap: a new connection goes through any possible sequence of callbacks, and its writes are those |

## Left out

- Sockets, libev, libebb, fork, signals, ps, the file system and the database server: what they deliver is a
  parameter of the events and methods. That a killed process dies shows only as a later event.
- Several applications at a time: `DispatchModel` follows one; applications share nothing but the server object.
- malloc failures and the lifetime of memory after free. A destroyed object is one that no queue or link mentions.
- The `high_ratio` and `low_ratio` counters and the timers' active flags, which the code calls out of step
  itself; the timer events may come at any time instead.
- What happens to a response of a request whose connection failed while its worker was busy: only the mark is
  kept (`Dispatcher.Application.OnConnError`).
- Pids and worker ids are unbounded; the source keeps a worker's pid in an unsigned short.
- A return from RESTARTING to ACTIVE: the source never makes it either.
- The check of a worker's socket name before it connects (`src/head/wr_worker.c:514-532`) counts as a failed connect.
- Split reads of a response header in the head.
- `wr_conn_err_resp` and `wr_req_invalid` as steps of a connection: they combine a chunk and an answered request,
  and also clear `keep_alive`, which decides only whether closing is scheduled.
- Scgi.Message.Send: speaks of send calls that succeed; the source adds the result of a failed one as an unsigned
  number.
- Header sizes and lengths beyond the range of an int, where the source's `%d` and `atoi` would wrap.
- WorkerReader.HttpReq.OnReadable: speaks of peers that send messages laid out by scgi_build and announce the
  length of their body, since the head is the only peer; other bytes are not part of this model.
- Ruby's `to_i` on signs, blanks and underscores: the only length read is the one that the builder wrote. Ruby
  strings count as bytes.
- libyaml's scanning, documents whose mapping keys are collections, streams of several documents, and levels
  beyond the range of a short. The stack under the YAML builder is a sequence, without its own cells.
- `yaml_get_node` and the printing and freeing of trees: recursion over a finished tree.
- Profiler exceptions that unwind past the generated code, and a request handled inside another request.
- Analyzer threads, database failures, deleted applications, and the per-second counts of an application sample.
- The database: breakup rows are kept inside the row they belong to, and which matching row `find(:first)`
  returns is left open.
- Static files and the path on disk in the resolver; host values that contain NUL. Its two lists are sequences.
- Comparing host names across applications (`src/head/wr_configurator.c:663-676`), which does not establish
  uniqueness in the source.
- What a read of freed memory yields: when the pass over the base URIs removes the very application it stands at,
  the null that was written to its link before it was freed is taken to be still there.
- Admin panel pages, mail, installation scripts, compression, regular expressions and access logs.
