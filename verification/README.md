# Verification of the Minecraft relay's resolver and route pipeline

A Dafny model of the single-threaded state machines that take a client's first packet to its destination:
the DNS resolver with its helper processes, the route coordinator above it, and the protocol code that
frames, rewrites and relays. Every outcome of the operating system (a send, a spawn, an allocation, a
received packet, a clock sample) is a parameter or an arbitrary choice, so what is proved holds for every run.

How the files follow the program:

- `SupervisorState`, `SupervisorMoves`, `SupervisorDelay`, `SupervisorSteps`, `Supervisor`: the scheduler of
  lookup jobs over helper processes (`src/resolver/supervisor.c`). One invariant covers where every job is,
  whose interest it counts, and what the attempt counters add up to; `Supervisor.Run` carries it through whole runs.
- `ResolutionGraph`, `ResolutionCounts`, `ResolutionSteps`, `Resolution`: the route coordinator's dependency graph
  of destinations, targets and cache entries (`src/route/resolution.c`), with counters that always equal a recount, and
  its background interests on a supervisor that others use as well.
- `Names`, `Wire`, `IpcCodec`, `IpcAssembly`, `IpcBudget`: the packets between relay and helpers, their reassembly into
  replies and the byte budget (`src/resolver/ipc.c`, `ipc_assembly.c`, `helper.c`).
- `Cache`: the reference-counted cache with lazy expiry, refining a map from queries to their last answer
  (`src/resolver/cache.c`).
- `Endpoint`, `WaiterSlots`, `Waiter`, `Connections`, `Mishaps`, `Generations`: choosing an address, waiting for it on
  the resolver supervisor, any number of waiting connections on one supervisor, two runs in which its books and theirs
  come apart, and the configuration generations all of it belongs to (`src/route/endpoint.c`, `waiter.c`, `generation.c`, `generation_registry.c`, `src/listener.c`).
- `Varints`, `Framing`, `Handshake`, `HandshakeBuffers`, `Rewrite`: incremental framing, the handshake codec with an
  independent grammar, and the rewritten upstream request (`src/basic.c`, `src/protocol/`, `src/connection/`).
- `DnsChain`, `DnsNegative`, `DnsLookup`, `DnsReply`: alias chains within and across responses, denials, and the way of a
  lookup's outcome through the helper's packets into the supervisor and the cache (`src/resolver/dns.c`, `helper.c`).
- `Relay`: the byte relay (`src/network.c`).
- `Basics`: what they share.

Objects the program updates in place are classes with those fields; their methods are specified by functions on
a value that stands for the whole state (`View()`), and the invariants are proved on those values, one small
change after the other. Ghost fields record what the program itself forgets: which holder owns which interest,
what every queue was given, which generation is in use.

Properties that turned out not to hold everywhere are stated with the exact condition under which they do:

- A rewritten login or status request reads as intended if and only if the destination's name contains no question mark,
  it and the client's extra data are not both empty and, for a login, the player's name holds no zero byte
  (`Rewrite.LoginForwarded`, `Rewrite.StatusForwarded`). The address of a handshake ends at the first question mark, so
  one inside the destination's name moves the rest of it into the extra data. `Rewrite.QuestionMarkBreaks` and
  `Rewrite.ZeroByteBreaks` are concrete failures.
- Writing back a handshake that was read is lossless only under the conditions of `Handshake.WriteAfterRead`: the flag
  byte in front of the signature data of older versions is dropped and set again whatever it was.
  `Handshake.UnsignedRewritten` is a concrete failure.
- The verdict on the oldest login form with an empty name waits for one byte beyond the packet
  (`Framing.CompleteFromOwnBytes`; `Framing.EmptyNameWaits` is the shortest such login).
- The deepest zone vouches for a denial, whatever the order of the authority section, if and only if the root zone and a
  zone of one character are not the deepest there: the source compares lengths, and theirs are equal
  (`DnsNegative.OrderMatters`, with the concrete records of `DnsNegative.RootPassesOver`).
- Not every reply an assembly completes can be published: denials without a question and unvouched ones are refused
  (`Cache.CompletedRepliesPublish`, with the concrete replies of `Cache.NoQuestionRefused` and
  `Cache.UnvouchedRefused`). No lookup ends in such a reply (`DnsReply.OutcomePublishes`).
- Giving an interest up takes it from the supervisor's books unless the supervisor is shut down or time ran backwards;
  what is then still counted is exact (`Waiter.RouteWaiter.Destroy`). `Mishaps.RefusedDestroy` is a run in which it
  happens.
- Ending a connection leaves the interests of others alone unless it missed a completion. The listener does not tell
  connections that are closing (`src/listener.c:2707`), and the supervisor counts interests without their holders
  (`src/resolver/supervisor.c:1176-1194`). So a release after a missed completion takes another's interest if and only
  if the supervisor is usable and another lookup of the same entry is unfinished that somebody waits for
  (`Waiter.RouteWaiter.InterestRelease`; `Connections.Contested` rules it out beforehand). `Mishaps.StolenInterest` is a
  run in which it happens. One turn of the listener marks cancelled connections, takes completions, starts others and
  only then ends the marked ones (`src/listener.c:3032-3321`).

## Model

| member | source | states |
|---|---|---|
| Supervisor.ResolverSupervisor.QueueRemove | src/resolver/supervisor.c:417-434 | exact new state: one job leaves the list of its priority, everything else stays |
| Supervisor.ResolverSupervisor.QueueAppend | src/resolver/supervisor.c:455-467 | exact new state: the job waits at the tail of the queue of its priority |
| Supervisor.ResolverSupervisor.QueuePrepend | src/resolver/supervisor.c:469-481 | exact new state: the job waits at the head of the queue of its priority |
| Supervisor.ResolverSupervisor.JobComplete | src/resolver/supervisor.c:350-368 | exact new state: the job joins the tail of the completion list with its publication status, and its interest counts are cleared |
| Supervisor.ResolverSupervisor.JobDestroy | src/resolver/supervisor.c:436-453 | exact new state in each of the three cases the job state selects; the list it is unlinked from is the one it is in |
| Supervisor.ResolverSupervisor.JobPrioritise | src/resolver/supervisor.c:483-509 | exact new state: a queued job moves to the tail of the other queue, any other job only changes its priority |
| Supervisor.ResolverSupervisor.JobRetry | src/resolver/supervisor.c:515-542 | an orphaned job is dropped, any other waits for a retry strictly later or is completed as failed; the retry count saturates. It needs no unlinking because a queued or completed job is never orphaned |
| SupervisorSteps.AfterRetryKeeps | src/resolver/supervisor.c:515-542 | retrying a job that is in no list keeps the whole invariant, although the job may still be marked queued |
| SupervisorSteps.HeadReady | src/resolver/supervisor.c:856-895 | the head of the queues is a waiting job of the highest priority present, wanted by somebody, and may be handed to any idle helper |
| Supervisor.ResolverSupervisor.RespawnSchedule | src/resolver/supervisor.c:646-691 | a failed helper backs off until a bounded time, or stops for good during shutdown |
| Supervisor.ResolverSupervisor.HelperFail | src/resolver/supervisor.c:705-729 | the invariant holds again after a helper failed in any state; its job was counted and retried or put back, no attempt started and every new retry lies in the future |
| Supervisor.ResolverSupervisor.HelperFree | src/resolver/supervisor.c:646-729 | exact new state of a failure: the helper loses its job and connection and backs off for a bounded time or stops; the job, if any, is counted and retried or put back |
| Supervisor.ResolverSupervisor.JobFail | src/resolver/supervisor.c:705-729 | a dispatched attempt is counted as failed and retried, an unsent request goes back to the head of its queue, exactly |
| Supervisor.ResolverSupervisor.RequestSend | src/resolver/supervisor.c:771-803 | a request is sent whole, left pending or not sent; only in the first two cases does anything change, and the deadline lies in the future |
| Supervisor.ResolverSupervisor.JobAssign | src/resolver/supervisor.c:813-854 | for every outcome of encoding and sending: the job is with the helper, back in its queue, or dropped with its helper failed, and the invariant holds; a background job is only offered when no interactive one waits |
| SupervisorMoves.AllocatedPlaced | src/resolver/supervisor.c:805-811 | every outstanding query id is smaller than the one allocated next, so ids of running attempts are distinct |
| Supervisor.ResolverSupervisor.DispatchStep | src/resolver/supervisor.c:856-895 | each round keeps the invariant and either shortens the backlog or takes a helper out of the idle state |
| Supervisor.ResolverSupervisor.Dispatch | src/resolver/supervisor.c:856-895 | terminates, keeps the invariant and is work-conserving: afterwards no helper is idle while a job waits |
| Supervisor.ResolverSupervisor.ResultFinish | src/resolver/supervisor.c:912-956 | an answer counts exactly if it was completed within its attempt and not in the future; then the exact new state: helper idle and credited, attempt counted once, job disposed of; otherwise the attempt failed, as a timeout exactly if it was answered late |
| Supervisor.ResolverSupervisor.ResultReject | src/resolver/supervisor.c:912-956 | an answer at an impossible time ends its query, fails its helper and counts the attempt as failed, exactly |
| Supervisor.ResolverSupervisor.AnswerDispose | src/resolver/supervisor.c:912-956 | exact new state of an answered job: retried after a temporary failure, else dropped if orphaned, else completed with whatever the cache made of the answer |
| Supervisor.ResolverSupervisor.Receive | src/resolver/supervisor.c:967-1008 | for every kind of packet or end: what becomes of the helper, and that an accepted partial answer or a packet during shutdown changes nothing; the invariant holds |
| Supervisor.ResolverSupervisor.Drain | src/resolver/supervisor.c:967-1008 | whatever a helper sends, the invariant holds and no other helper changes |
| Supervisor.ResolverSupervisor.HelperStop | src/resolver/supervisor.c:765-769 | a helper that leaves during shutdown is stopped and nothing else changes |
| Supervisor.ResolverSupervisor.TimersProcessHelpers | src/resolver/supervisor.c:1082-1103 | afterwards no attempt is overdue |
| Supervisor.ResolverSupervisor.TimersProcessJobs | src/resolver/supervisor.c:1068-1080 | afterwards no retry is due, and no job appeared or vanished |
| Supervisor.ResolverSupervisor.HelperEvents | src/resolver/supervisor.c:1473-1544 | all readiness of one helper is handled with the invariant kept |
| Supervisor.ResolverSupervisor.EventsProcess | src/resolver/supervisor.c:1473-1544 | invariant kept; a rejected time changes nothing; otherwise no attempt is overdue, no retry is due and, outside shutdown, no helper is idle while a job waits |
| Supervisor.ResolverSupervisor.Schedule | src/resolver/supervisor.c:1218-1290 | the holder gets a marker exactly when its interest is counted; one job per entry; the admission limits of both priorities; a fresh cached answer is reported exactly when there is one; every refusal changes nothing; the result is work-conserving |
| Supervisor.ResolverSupervisor.Release | src/resolver/supervisor.c:1168-1216 | a holder with a marker is refused only in shutdown or for a bad time, loses exactly its own marker, and no other interest is touched; one without a marker takes away somebody else's interest in the entry exactly if the lookup is unfinished and such an interest is counted, and otherwise changes nothing |
| Supervisor.ResolverSupervisor.Withdraw | src/resolver/supervisor.c:1168-1216 | exact new state: the last interest takes the job with it unless an attempt is running, which is then an orphan; any other only lowers a count and perhaps the priority; the invariant holds |
| Supervisor.ResolverSupervisor.CompletionTake | src/resolver/supervisor.c:1302-1323 | the oldest completion is handed over with its entry and publication, its job is gone and its markers are cleared |
| Supervisor.ResolverSupervisor.JobsDestroyAll | src/resolver/supervisor.c:1105-1138 | every job is given up and counted as abandoned; none is left |
| Supervisor.ResolverSupervisor.Shutdown | src/resolver/supervisor.c:1654-1676 | after an accepted shutdown no job is left and every helper is stopping; a second call changes nothing; a rejected time changes nothing |
| Supervisor.ResolverSupervisor.constructor | src/resolver/supervisor.c:1325-1385 | a new supervisor satisfies the invariant, with nothing queued, counted or marked |
| Supervisor.Run | src/resolver/supervisor.c:1168-1544 | over every run of scheduling, releasing, completing, events and shutdown: the invariant holds, the interests the supervisor counts are exactly the markers the holders remember, and the supervisor is work-conserving unless an error was reported |
| SupervisorSteps.ExactlyOnePlace | src/resolver/supervisor.c:350-542 | every job is in exactly one place: once in the queue of its priority, once among the completions, or with exactly one helper; only a job waiting for a retry is in none |
| SupervisorSteps.BooksBalance | src/resolver/supervisor.c:316-368 | at every moment and for every query type: attempts dispatched are answered, failed, running or abandoned, and completions enqueued are taken, waiting or abandoned |
| SupervisorSteps.BooksClosed | src/resolver/supervisor.c:1105-1138 | with nothing outstanding, attempts dispatched are attempts answered, failed or abandoned, and completions enqueued are taken or abandoned, for every query type |
| SupervisorSteps.MarkerHasJob | src/resolver/supervisor.c:1168-1216 | whoever holds a marker finds a job for its entry with a positive count of its priority |
| SupervisorMoves.CoalescedKeeps | src/resolver/supervisor.c:1218-1290 | joining a running job keeps placement, ledger and books, also when it is promoted or no longer an orphan |
| SupervisorMoves.ReleasedKeeps | src/resolver/supervisor.c:1168-1216 | a withdrawal that leaves the job keeps placement, ledger and books; the job is an orphan exactly when both counts are zero |
| SupervisorMoves.LastReleaseKeeps | src/resolver/supervisor.c:1168-1216 | the last withdrawal from a job no helper has to answer for drops the job and keeps the rest |
| SupervisorMoves.CompletedKeeps | src/resolver/supervisor.c:350-368 | completing a job in transit keeps placement, ledger and books |
| SupervisorMoves.LentKeeps | src/resolver/supervisor.c:771-803 | handing a job to a helper keeps placement, ledger and books |
| SupervisorSteps.AbandonedKeeps | src/resolver/supervisor.c:1105-1138 | giving a job up at shutdown keeps the books |
| SupervisorSteps.FailedJobKeeps | src/resolver/supervisor.c:705-729 | the job part of a failure keeps placement, ledger and books |
| SupervisorDelay.CappedDoubling | src/resolver/supervisor.c:186-214 | the doubling loop yields the first delay times a power of two, capped, without overflow |
| SupervisorDelay.QueryBase | src/resolver/supervisor.c:186-199 | the retry delay before jitter: capped exponential in the number of retries |
| SupervisorDelay.RespawnBase | src/resolver/supervisor.c:201-214 | the respawn delay before jitter: capped exponential in the number of failures |
| SupervisorDelay.Jitter | src/resolver/supervisor.c:176-184 | jitter keeps a delay within a fifth of its base, and positive |
| Resolution.RouteResolution.BackgroundRelease | src/route/resolution.c:179-191 | an entry keeps no interest afterwards, and the supervisor, unless it refuses, counts one interest of this coordinator less and none of others |
| Resolution.RouteResolution.SupervisorRelease | src/route/resolution.c:179-191 | on a real supervisor: it counts this coordinator's interest no longer and everybody else's as before, unless it refuses in shutdown or for a bad time |
| Resolution.RouteResolution.SupervisorSchedule | src/route/resolution.c:981-1041 | on a real supervisor: a started or joined lookup is counted for this coordinator once, nobody else's interest changes, and only an I/O error leaves the books apart |
| Resolution.RouteResolution.EntryRemove | src/route/resolution.c:276-295 | an entry nothing uses disappears, queue position included; any other stays |
| Resolution.RouteResolution.DynamicAcquire | src/route/resolution.c:236-255 | an existing entry is reused as it is, a new one starts unused and queued, and a failure changes nothing |
| Resolution.RouteResolution.DependencyUnlink | src/route/resolution.c:297-318 | the dependency graph stays exact when a dependency goes, entries it was the last use of included |
| Resolution.RouteResolution.DnsPrepare | src/route/resolution.c:382-402 | both address entries are there, or nothing is left behind |
| Resolution.RouteResolution.TargetCreate | src/route/resolution.c:417-463 | the target exists afterwards and is new exactly if it was missing; a failure changes nothing |
| Resolution.RouteResolution.TargetRemove | src/route/resolution.c:465-497 | an unused target goes, with those of its entries nothing else uses |
| Resolution.RouteResolution.NameAdd | src/route/resolution.c:509-531 | the draft of a target set grows by exactly one name, once |
| Resolution.RouteResolution.DraftUndo | src/route/resolution.c:533-595 | an abandoned draft leaves the graph as it was before |
| Resolution.RouteResolution.TargetSetBuild | src/route/resolution.c:533-595 | the drafted names are exactly the targets of the records; a root target refuses the set, alone as unavailable service, with others as contradiction; a failure leaves nothing behind |
| Resolution.RouteResolution.TargetSetUnlink | src/route/resolution.c:597-614 | a destination loses its whole target set and the graph stays exact |
| Resolution.RouteResolution.DestinationFail | src/route/resolution.c:616-625 | the destination ends with the given result and no targets; counters and graph stay exact |
| Resolution.RouteResolution.TargetsReplace | src/route/resolution.c:627-650 | the new target set is installed, counters equal a recount, and no entry the new set needs was released on the way, whether or not the old set used it too |
| ResolutionSteps.SharedSurvive | src/route/resolution.c:627-650 | every entry and target the candidate set holds survives the dissolution of the old set |
| ResolutionSteps.ReplacedCore | src/route/resolution.c:627-650 | the counters of the rebuilt destination equal a recount, those of the others are untouched |
| Resolution.RouteResolution.DestinationExpand | src/route/resolution.c:652-665 | an answered service destination gets the targets of its records or the result that explains why not |
| Resolution.RouteResolution.DestinationUpdate | src/route/resolution.c:166-177 | exact new state: the result follows from the counters and the first terminal result is counted once |
| Resolution.RouteResolution.EntryTerminalObserve | src/route/resolution.c:667-710 | the first terminal observation satisfies each dependency once and rebuilds service destinations; later ones change no counter; the invariant holds |
| Resolution.RouteResolution.FreshObserve | src/route/resolution.c:712-725 | an entry with a fresh answer is terminal afterwards |
| Resolution.RouteResolution.CompletionObserve | src/route/resolution.c:727-781 | a completion of a known entry ends its interest and makes it terminal; of an unknown one it is ignored; warm-up only advances |
| Resolution.RouteResolution.constructor | src/route/resolution.c:801-901 | a new coordinator is empty and the supervisor counts nothing for it |
| Resolution.RouteResolution.Build | src/route/resolution.c:801-901 | a built coordinator has one destination per binding and satisfies the whole invariant, cached answers observed |
| Resolution.RouteResolution.Schedule | src/route/resolution.c:981-1041 | every batch keeps the invariant, and unless it fails also the agreement with the supervisor; scheduling is complete only when every bound and every dynamic entry was dealt with |
| Resolution.RouteResolution.BackgroundReleaseAll | src/route/resolution.c:784-799 | no entry keeps an interest and the supervisor holds none for this coordinator |
| Resolution.RouteResolution.WarmupMeans | src/route/resolution.c:1047-1049 | the warm-up gate is open exactly when every destination had a first terminal result, and it is open once every known entry is terminal |
| Resolution.WarmStaysWarm | src/route/resolution.c:1047-1049 | once warm, always warm |
| Resolution.Run | src/route/resolution.c:727-1049 | over every run of scheduling, completions and releases on a real supervisor that others use as well: references and counters are exact, until a call fails the supervisor counts exactly the interests the entries show and those of others, and the warm-up gate never closes again |
| ResolutionCounts.AllTerminalWarmsUp | src/route/resolution.c:166-1049 | if every known entry is terminal then every destination has a first terminal result |
| ResolutionCounts.TerminalsBounded | src/route/resolution.c:166-177 | the counter of terminal destinations never exceeds their number, and equals it only if all are terminal |
| ResolutionGraph.TargetHeldTargets | src/route/resolution.c:533-595 | use counts stay the number of holding sets when a target joins the candidate |
| Resolution.RootTargets | src/route/resolution.c:533-595 | the scan finds whether there is a root target and whether it stands alone |
| Names.NormalizeIdempotent | src/resolver/util.c:29-56 | a normal form is its own normal form |
| Names.NormalizeIgnoresDot | src/resolver/util.c:29-56 | so have a name and the same name with a trailing dot |
| Names.NormalizeIgnoresCase | src/resolver/util.c:29-56 | names that differ only in case have the same normal form |
| Wire.NumbersOfEncoded | src/resolver/ipc.c:208-352 | reading a run of big-endian fields inverts writing it, whatever follows |
| Wire.EncodedOfNumbers | src/resolver/ipc.c:208-352 | a run of fields can be read exactly when the bytes suffice, and writing what was read gives the same bytes |
| Wire.PacketReader.Take | src/resolver/ipc.c:186-193 | the cursor moves by exactly what is taken, and not at all when too little is left |
| Wire.PacketReader.Number | src/resolver/ipc.c:208-246 | the next field, or nothing and no movement |
| Wire.PacketReader.NumberRun | src/resolver/ipc.c:208-246 | a run of fields one after the other is what the specification reads |
| Wire.PacketWriter.Number | src/resolver/ipc.c:311-352 | a field is appended in big-endian order if it fits, else nothing is |
| Wire.PacketWriter.Bytes | src/resolver/ipc.c:291-309 | bytes are appended if they fit, else nothing is |
| IpcCodec.Encode | src/resolver/ipc.c:392-849 | one encoder for the six packet kinds: refuses exactly invalid packets and short buffers, else writes the specified bytes |
| IpcCodec.Decode | src/resolver/ipc.c:354-822 | the decoder by reader calls computes the specified parse, error statuses included |
| IpcCodec.DecodeHeader | src/resolver/ipc.c:354-390 | the header decoder computes the specified inspection |
| IpcCodec.ParseOfBytes | src/resolver/ipc.c:493-849 | decoding inverts encoding for every valid packet of every kind |
| IpcCodec.BytesOfParse | src/resolver/ipc.c:493-849 | every accepted packet is valid and encodes to the very same bytes |
| IpcCodec.BytesInjective | src/resolver/ipc.c:517-849 | no two valid packets have the same bytes |
| IpcCodec.SizeBounded | src/resolver/ipc.c:392-412 | every valid packet fits the packet limit |
| IpcAssembly.Emit | src/resolver/helper.c:209-319 | a result is sent as BEGIN, its aliases, its records and END in this order, each encoded; it fails exactly if one of them is not a valid packet, after sending exactly those before the first such |
| IpcAssembly.AssemblySound | src/resolver/ipc_assembly.c:199-535 | for arbitrary packet sequences: complete is reached only by exactly the packets of a well-formed reply, whose aliases form a simple path from the expected to the canonical name and whose lives are the minima along it |
| IpcAssembly.AssemblyComplete | src/resolver/ipc_assembly.c:199-535 | the packets of every well-formed reply lead a new assembly to complete with that very reply |
| IpcAssembly.PathExtended | src/resolver/ipc_assembly.c:267-301 | an alias keeps the path simple exactly when the target check accepts it |
| IpcAssembly.FeedSound | src/resolver/ipc_assembly.c:237-535 | at every moment an assembly holds exactly what the packets so far said |
| IpcAssembly.FeedPrefix | src/resolver/ipc_assembly.c:498-535 | whatever was accepted was accepted bit by bit, and only its last packet can have completed it |
| IpcAssembly.ScriptsUnambiguous | src/resolver/ipc_assembly.c:498-535 | the packets of one well-formed reply never start the packets of another |
| IpcBudget.AssemblyBudget.constructor | src/resolver/ipc_assembly.c:383-393 | a new budget owns itself only |
| IpcBudget.AssemblyBudget.Create | src/resolver/ipc_assembly.c:405-445 | a new assembly is charged once; the reasons to refuse are exact and refusals change nothing |
| IpcBudget.AssemblyBudget.PacketConsume | src/resolver/ipc_assembly.c:498-535 | exact verdict for every packet: protocol violation, limit or memory fails the assembly and gives its arrays back; complete means a well-formed reply sent by exactly these packets; the ledger stays exact |
| IpcBudget.AssemblyBudget.Fail | src/resolver/ipc_assembly.c:344-349 | a failed assembly keeps only its own structure charged |
| IpcBudget.AssemblyBudget.ResultTake | src/resolver/ipc_assembly.c:556-571 | a complete reply is handed out once, with its bytes moved to the result and the ledger unchanged |
| IpcBudget.AssemblyBudget.AssemblyDestroy | src/resolver/ipc_assembly.c:447-471 | an assembly gives back exactly what it owns; the clamp at zero is never reached |
| IpcBudget.AssemblyBudget.ResultDestroy | src/resolver/ipc_assembly.c:537-554 | a result gives back exactly what it owns; the clamp at zero is never reached |
| IpcBudget.Deliver | src/resolver/helper.c:209-319 | from helper to supervisor: every well-formed reply, sent packet by packet, is handed out as it was and stays charged with its own size; complete only if its arrays fit both limits, and refused for its size only if they do not |
| IpcBudget.DeliverRest | src/resolver/ipc_assembly.c:498-535 | after the first packet of a well-formed reply nothing can fail any more |
| Cache.RecordsScan | src/resolver/cache.c:240-318 | one pass accepts exactly the well-formed record lists and finds their shortest life |
| Cache.CompletedRepliesPublish | src/resolver/cache.c:240-318 | of all the replies an assembly completes, exactly these can be published, with this view and life: answers, denials of records, and denials of the name the server vouched for, each to a question |
| Cache.NoQuestionRefused | src/resolver/cache.c:240-273 | a concrete denial without a question, which an assembly completes and the cache refuses |
| Cache.UnvouchedRefused | src/resolver/cache.c:240-273 | a concrete denial of the name with the code of a success, which an assembly completes and the cache refuses |
| Cache.ResolverCache.constructor | src/resolver/cache.c:387-410 | a new cache is empty and owns its fixed part |
| Cache.ResolverCache.Find | src/resolver/cache.c:73-81 | the chain walk finds the entry of a query if there is one |
| Cache.ResolverCache.Acquire | src/resolver/cache.c:429-486 | one reference more on the entry of the normalized query, created with an id never given out before if missing; exact refusals, which change nothing |
| Cache.ResolverCache.Retain | src/resolver/cache.c:585-591 | one reference more unless the count is full |
| Cache.ResolverCache.Release | src/resolver/cache.c:556-583 | one reference less; the last one removes the entry from its chain and gives back exactly what it owned |
| Cache.ResolverCache.Publish | src/resolver/cache.c:338-550 | a stored answer supersedes the last one and lives as long as its shortest record; a transient one forgets it; every failure changes nothing; the ledger stays exact and bounded |
| Cache.ResolverCache.Validate | src/resolver/cache.c:240-318 | the two validators compute the specified verdict and life |
| Cache.ResolverCache.View | src/resolver/cache.c:593-632 | as long as time does not run backwards a view is exactly the last stored answer that has not expired; expired answers are dropped here only |
| Endpoint.FamilySelect | src/route/endpoint.c:42-53 | the first usable address of the family |
| Endpoint.SrvRecordSelect | src/route/endpoint.c:185-226 | the first of the heaviest records of the lowest priority, or the exact reason why there is none |
| Endpoint.ChoiceUnique | src/route/endpoint.c:185-226 | the rules leave exactly one choice |
| Endpoint.SrvSelectExactly | src/route/endpoint.c:185-226 | the executable definition is that choice |
| Endpoint.AddKeeps | src/route/endpoint.c:100-117 | requirements stay few, distinct and pending exactly where nothing is known |
| Endpoint.SelectKeeps | src/route/endpoint.c:119-167 | address selection names both families when it waits, and the list of requirements never overflows |
| Endpoint.EvaluateWaits | src/route/endpoint.c:64-380 | every evaluation names what it depends on, pending exactly where nothing is known, and a pending one names something to wait for |
| Endpoint.EvaluateAgain | src/route/endpoint.c:276-380 | after some unknown entries were given up, a second evaluation names nothing the pending first one did not |
| Waiter.RouteWaiter.constructor | src/route/waiter.c:312-342 | a new waiter waits, tracks nothing, is counted for nothing and has handed nothing out |
| Waiter.RouteWaiter.InterestRelease | src/route/waiter.c:109-126 | one interest is given up; the supervisor refuses exactly in shutdown or for a bad time and then goes on counting it; of an interest whose completion was missed, it is exact whether somebody else loses theirs, and nothing else is touched |
| Waiter.RouteWaiter.SlotClear | src/route/waiter.c:128-137 | a slot gives back its reference and is free; what it returns, whether its interest is still counted, and whether somebody else pays for a missed completion follow exactly from the supervisor's state |
| Waiter.RouteWaiter.TerminalSet | src/route/waiter.c:172-249 | a terminal waiter holds no interest; a usable supervisor counts none for it afterwards that it did not count before, an unusable one goes on counting all and its refusal becomes the reason |
| Waiter.RouteWaiter.Reconcile | src/route/waiter.c:187-218 | exactly the named entries are tracked, those that stay keep all they know |
| Waiter.RouteWaiter.AddMissing | src/route/waiter.c:187-218 | there is always a free slot, so it fails only when an entry cannot be retained |
| Waiter.RouteWaiter.Ask | src/route/waiter.c:377-445 | scheduling meets the supervisor's demand that the interest is new, and the supervisor then counts it exactly if it started, joined or failed with an I/O error; a fresh answer is reported only where the cache holds one |
| Waiter.RouteWaiter.ScheduleAll | src/route/waiter.c:377-445 | exactly the pending entries nobody was asked about are scheduled, with the outcome recorded slot by slot; only an I/O error leaves an interest behind that the waiter does not know of |
| Waiter.RouteWaiter.Round | src/route/waiter.c:377-445 | one evaluation: a new round follows only if something was given up, and never two such rounds in a row |
| Waiter.RouteWaiter.Progress | src/route/waiter.c:377-445 | on a real supervisor: at most two evaluations at one moment, so the bound on rounds is never reached; terminal states are sticky and hold no interest; whoever still waits is before its deadline, has asked about everything unknown and is counted for exactly what it wants; nobody else's interest is touched |
| Waiter.RouteWaiter.CompletionObserve | src/route/waiter.c:252-310 | exact status and slots for every completion: malformed ones change nothing, a transient answer is kept only if found and completed by the deadline and within its limit, and the interest in the entry is over in any case; other slots are untouched |
| Waiter.RouteWaiter.SnapshotTake | src/route/waiter.c:447-458 | the snapshot of a ready waiter is handed out at most once |
| Waiter.RouteWaiter.Destroy | src/route/waiter.c:352-364 | every reference and every interest is given back; the status and what a refusing supervisor goes on counting are exact, and nobody else loses an interest unless a completion of that entry was missed |
| WaiterSlots.NoneDue | src/route/waiter.c:377-445 | when a pending evaluation follows another at the same time, nothing is left to ask |
| WaiterSlots.RoomLeft | src/route/waiter.c:187-218 | three slots suffice |
| Connections.Drive | src/listener.c:971-1016 | driving one connection's waiter keeps supervisor and all waiters in agreement, and leaves nothing behind while the supervisor is usable and no I/O error occurs |
| Connections.Close | src/listener.c:712-763 | ending a connection keeps the agreement of all the others unless it missed a completion; then those who may lose an interest are among the others counted for the missed entries; nothing stays counted for it on a usable supervisor |
| Connections.CloseFreely | src/listener.c:712-763 | an end that is not contested takes no interest from anybody |
| Connections.Contested | src/listener.c:712-763 | a check beforehand decides whether an end could cost somebody else an interest: exactly if something was missed and another connection believes in an interest in it, or the run was disturbed |
| Connections.Observe | src/listener.c:2706-2714 | an open connection is told of a completion and forgets its interest, one that is closing misses it and goes on believing |
| Connections.Tell | src/listener.c:2703-2714 | a taken completion, whatever its final status, is told to every open connection and missed by those that are closing; afterwards nobody is counted for its entry, and what each one missed is recorded |
| Connections.Serve | src/listener.c:2696-2723 | over every run of any number of connections, closing ones included, and of background work on one supervisor, up to the first contested end: each waiter is counted for exactly what it believes save what it missed, and undisturbed runs count exactly what connections and coordinators want |
| Mishaps.StolenInterest | src/listener.c:2706-2714 | a run in which a closing connection misses a completion, another one has the entry looked up again, and the end of the first takes the interest of the second away, which goes on waiting |
| Mishaps.RefusedDestroy | src/route/waiter.c:352-364 | a run in which a waiter asks at one time and is destroyed at an earlier one: its slots are free, the status is that of a bad time, and the supervisor goes on counting the interest |
| Connections.OthersKeep | src/resolver/supervisor.c:1168-1216 | what one holder does to the books is not seen by another |
| Connections.Accounted | src/route/waiter.c:352-364 | with nothing left behind, an interactive interest is counted exactly if a connection that is not gone believes in it and did not miss its completion |
| Generations.Generation.constructor | src/route/generation.c:57-75 | a new generation has one reference |
| Generations.Generation.Retain | src/route/generation.c:109-115 | one reference more unless the count is full |
| Generations.Generation.Release | src/route/generation.c:93-103 | one reference less; the last one destroys |
| Generations.Registry.ActiveRetain | src/route/generation_registry.c:45-50 | a holder gets the active generation and is counted |
| Generations.Registry.HolderRelease | src/route/generation.c:93-103 | a holder leaving never destroys a generation |
| Generations.Registry.Collect | src/route/generation_registry.c:52-87 | the retired generation goes exactly when nobody holds it and its interests could be released |
| Generations.Registry.Publish | src/route/generation_registry.c:131-168 | the candidate becomes active with the old one retired, or nothing changes; it is blocked exactly while a retired generation is held; identities grow strictly |
| Generations.Registry.AtMostTwoAlive | src/route/generation_registry.c:52-168 | at most two generations are alive |
| Generations.Registry.HeldIsAlive | src/route/generation_registry.c:52-168 | a generation somebody holds is active or retired and not destroyed |
| Generations.Run | src/route/generation_registry.c:45-168 | over every run each used generation is alive and counts one more than its users |
| Varints.Varint2Int | src/basic.c:330-367 | the loop reads what the definition of a variable-length integer says, incomplete and malformed ones included |
| Varints.Int2Varint | src/basic.c:199-212 | the loop writes the shortest spelling and nothing else |
| Varints.VarintSize | src/protocol/handshake.c:25-31 | the size of the shortest spelling |
| Varints.VarintOfPrinted | src/basic.c:199-367 | reading inverts writing, whatever follows |
| Varints.PrintedShortest | src/basic.c:199-212 | no spelling is shorter than the written one and no other is as short |
| Varints.VarintExtended | src/basic.c:330-367 | bytes after a number or a malformed one do not change the verdict |
| Framing.VerdictStable | src/protocol/common.c:114-214 | a complete or invalid verdict stands whatever arrives later, in every protocol form |
| Framing.NeedHonest | src/protocol/common.c:114-214 | with fewer bytes than announced the packet is still incomplete |
| Framing.NeedGrows | src/protocol/common.c:114-214 | the announced need exceeds what is there, and a complete size does not |
| Framing.AmbiguousExactly | src/protocol/common.c:114-214 | only FE and FE 01 are ambiguous |
| Framing.ChunkIndependent | src/protocol/common.c:114-214 | however a stream is cut into chunks, receiving until the verdict is decisive reaches the verdict of the whole stream |
| Framing.CompleteFromOwnBytes | src/protocol/common.c:114-214 | a packet is recognised from its own bytes alone exactly unless it is an oldest-form login with an empty name |
| Framing.EmptyNameWaits | src/protocol/common.c:114-214 | a concrete such login: 02 00 00 00 is complete at three bytes, 02 00 00 is not yet |
| Framing.IdentifyExtended | src/protocol/common.c:37-112 | identification as a modern handshake does not change when more bytes arrive |
| Handshake.ReadExactly | src/protocol/handshake.c:180-302 | a byte string is read as a handshake exactly when the grammar gives it that meaning: numbers in any spelling, frames covered exactly, anything after |
| Handshake.Unambiguous | src/protocol/handshake.c:180-302 | no byte string is spelled in two ways |
| Handshake.ReadAfterWrite | src/protocol/handshake.c:180-376 | reading what was written, for every writable handshake and any bytes after it: nothing without an address, else exactly what a reader sees |
| Handshake.RoundTripExactly | src/protocol/handshake.c:180-376 | the round trip holds exactly for addresses without zero or question mark, names without zero and no login parts outside a login |
| Handshake.ReadIsFaithful | src/protocol/handshake.c:180-376 | what was read can be written and read again, exactly unless its name holds a zero byte |
| Handshake.WriteAfterRead | src/protocol/handshake.c:180-376 | a login is written back byte for byte exactly if its numbers were spelled shortest, its name has no zero byte and a flag byte, where the version has one, stood before some signature |
| Handshake.UnsignedRewritten | src/protocol/handshake.c:180-376 | a concrete login of version 763 with signature data 00 is read and written back with 01 00 |
| Handshake.FlaggedOfStripped | src/protocol/handshake.c:282-295 | the flag byte survives exactly when it is set and something follows it |
| Handshake.PartsFit | src/protocol/handshake.c:304-376 | both parts fit their staging buffers, the second to the last byte |
| Handshake.WrittenLength | src/protocol/common.c:114-214 | framing ends a written handshake after its first frame for a status request or version zero, and otherwise after both |
| Handshake.WrittenLooksModern | src/protocol/common.c:68-81 | a written handshake is never taken for an older protocol, also not at 254 bytes, where it starts like a legacy ping |
| HandshakeBuffers.PacketRead | src/protocol/handshake.c:180-302 | the cursor-based reader computes the specified parse whenever memory suffices, and never anything else |
| HandshakeBuffers.CutAt | src/protocol/handshake.c:218-224 | the address ends at the earlier of the first zero byte and the first question mark |
| HandshakeBuffers.PacketWrite | src/protocol/handshake.c:304-376 | writes the specified bytes exactly when the handshake is writable, memory suffices and they fit; otherwise the destination is untouched |
| Rewrite.FramingAgrees | src/protocol/common.c:174-212 | for every identified handshake with a version, framing ends the packet where reading ends it |
| Rewrite.LoginForwarded | src/connection/setup_long.c:354-376 | the destination reads the same login with address and port replaced, followed by exactly the client's own tail, if and only if the destination name has no question mark, the player name no zero byte, and the destination name and the client's extra data are not both empty |
| Rewrite.StatusForwarded | src/connection/setup_short.c:135-179 | the same for status requests, whose second written frame is dropped; framing of the forwarded request agrees |
| Rewrite.QuestionMarkBreaks | src/connection/setup_long.c:356-373 | a concrete client and destination for which the rewritten login reads differently |
| Rewrite.ZeroByteBreaks | src/connection/setup_long.c:356-373 | a concrete client, whose player name ends in a zero byte, for which the rewritten login reads differently at every destination |
| Rewrite.StatusSendable | src/connection/setup_short.c:135-179 | only the size of the address can stop a status request from being rewritten |
| Rewrite.Seed.Append | src/connection/setup_long.c:176-185 | all of the data is appended or none of it, by the limit |
| Rewrite.Seed.AppendTail | src/connection/setup_long.c:197-203 | exactly the bytes after the client's first packet are appended |
| Rewrite.Seed.Login | src/connection/setup_long.c:318-415 | the seed is header, then either the client's bytes or the rewritten handshake and the tail; with enough memory it succeeds exactly when all of that fits |
| Rewrite.ShortPlan.RequestModern | src/connection/setup_short.c:135-179 | the planned request in every case, kept unchanged on failure; with enough memory the success condition is exact |
| DnsChain.NameEqual | src/resolver/dns.c:72-101 | equality up to case and one trailing dot |
| DnsChain.FindMatch | src/resolver/dns.c:386-399 | one pass finds the first alias of a name, the shortest life of all its aliases, or a disagreement |
| DnsChain.MatchMeans | src/resolver/dns.c:386-399 | what that pass means: no alias, all agreeing on one target, or two that disagree |
| DnsChain.Walk | src/resolver/dns.c:366-443 | the loop terminates and follows the aliases as specified, with the least life along the way |
| DnsChain.ChainBuild | src/resolver/dns.c:366-443 | status, chain, canonical name and records of a response: on success a simple path and exactly the records at its end, none outliving the path |
| DnsChain.FollowExactly | src/resolver/dns.c:376-419 | following succeeds exactly when the aliases describe a simple path of at most sixteen links whose inner names hold no records, and yields that path with the shortest life of each link |
| DnsChain.PermutationInvariant | src/resolver/dns.c:376-419 | status, path and lives do not depend on the order of the aliases |
| DnsChain.BuiltPermuted | src/resolver/dns.c:366-443 | the status of a response and the answers it holds, as a collection, do not depend on the order of its aliases and records |
| DnsChain.SelectedPermuted | src/resolver/dns.c:420-441 | reordering the records only reorders the answers |
| DnsChain.FollowPermuted | src/resolver/dns.c:506-586 | the same from any point on, for equal sets of aliases and records |
| DnsChain.SelectedHolds | src/resolver/dns.c:420-441 | some record is selected exactly if the name holds one, and each lives the lesser of its own and the chain's life |
| DnsChain.ChainFitsAssembly | src/resolver/dns.c:366-443 | the chain of a response in normal form is a path the reply assembly accepts |
| DnsNegative.NegativeParse | src/resolver/dns.c:240-279 | limit, malformed or the choice, exactly; the choice is capped by the chain |
| DnsNegative.ChosenMeans | src/resolver/dns.c:240-279 | a denial is vouched for exactly if the SOA record of a zone around the name is there; the deepest such zone counts, the first among equally deep ones, with the shortest lives given for it |
| DnsNegative.OrderMatters | src/resolver/dns.c:240-279 | the choice is independent of the order of the section if and only if the root and a zone of a single character are not the deepest zones there |
| DnsNegative.RootPassesOver | src/resolver/dns.c:240-279 | two concrete records and a name for which the order decides |
| DnsNegative.ChosenVouched | src/resolver/dns.c:240-279 | the life of a denial is the least of the zone's minimum, its record's life and the chain's |
| DnsLookup.ResponseParse | src/resolver/dns.c:776-824 | the exact status of a response from its code, chain and authority section, and with enough memory its exact result; a settled result is a simple path from the expected name, with the chosen denial if there is nothing at its end |
| DnsLookup.JoinedSimple | src/resolver/dns.c:143-173 | two simple paths that meet make one exactly when the second never returns to a name the first left |
| DnsLookup.LinksAppend | src/resolver/dns.c:143-173 | the loop joins two chains with the least life of both, or stops exactly if the second leads back to a name of the first |
| DnsLookup.ChainAppend | src/resolver/dns.c:143-173 | chains are joined, or, as long as memory lasts, the exact reason: they do not meet, are too long together, or would visit a name twice |
| DnsLookup.QueryStep | src/resolver/dns.c:776-824 | one reply: with enough memory exactly the next state of the lookup; it goes on only with a longer path |
| DnsLookup.Lookup | src/resolver/dns.c:641-750 | whatever the servers answer, at most seventeen queries; with enough memory status and result are exactly those of following the replies one after the other; what was found lies at the end of a simple path from the name asked and does not outlive it, a denial lives exactly as long as its zone and the path allow, and a failure keeps the path so far with the server's code |
| DnsReply.LookupWellFormed | src/resolver/helper.c:209-319 | however a lookup ended, what the helper sends for it is a well-formed reply, which the supervisor never refuses |
| DnsReply.OutcomePublishes | src/resolver/cache.c:240-273 | the cache takes exactly the outcomes that found out, and remembers a denial exactly as long as it lives |
| DnsReply.Resolve | src/resolver/helper.c:209-319 | lookup, emission and reassembly together: the supervisor holds the very outcome of the lookup, exactly if there is room for it and memory lasts; with enough memory that outcome is determined by the servers' replies |
| Relay.Queue.constructor | src/network.c:276-279 | a queue starts with the pending bytes |
| Relay.Queue.Compact | src/network.c:82-94 | what waits moves to the front unchanged |
| Relay.Queue.Drain | src/network.c:96-116 | exactly the bytes the socket took leave, from the front, in order |
| Relay.Queue.Fill | src/network.c:118-139 | exactly the bytes received that fit are added behind, and the end of the stream is noted |
| Relay.Queue.ShutdownPropagate | src/network.c:141-154 | the direction is ended only after the end of its input and with nothing left, once |
| Relay.Serve | src/network.c:323-344 | exactly what the socket brought is added and exactly what it took is removed, in order; serving fails exactly for an error, or for a socket that hung up silently or with bytes still waiting for it |
| Relay.Run | src/network.c:257-361 | at every moment what was sent is a prefix of the pending bytes and what was received, at most a buffer behind; closed means both directions ended with nothing missing |
| Relay.IdleRemainingExactly | src/network.c:48-76 | the poll timeout is the time left until the idle limit rounded up to a millisecond, zero exactly when it is over or the clock went back |

## Left out

- The listener's event loop, sockets, signals, timers as file descriptors, process start and file handling: operating-system calls whose outcomes are parameters here.
- Configuration parsing, logging, metrics formatting, histograms and high-water marks: easy members that add no property.
- DNS message parsing: chains and denials start from extracted records, whose names are in the normal form the parser gives them and whose number is limited.
- Legacy login parsing and writing, the PROXY header's text form, the kick and status messages: the header is a given byte string.
- Route table, bindings, hosts table and prewarmer: lookups that are given inputs to the coordinator and to `Endpoint.Evaluate`.
- The statuses that report an I/O error of the supervisor are fatal to the program; invariants are stated for the state at return, and work conservation for every other status.
- Connections.Serve: says nothing after the first contested end of a connection; what such an end does to the others is stated by Connections.Close.
- Supervisor.Run: assumes that every holder observes each completion taken on its entry; connections that do not are part of Connections.Serve.
- Coordinators take part in `Connections.Serve` as arbitrary background requests, and connections in `Resolution.Run` as arbitrary requests of others; there is no single run of both classes.
- Resolution.Run: after a failed call, which the listener does not survive, the interests the supervisor counts are not related to the coordinator's any more; the times passed to the supervisor are arbitrary.
- Mishaps.StolenInterest: memory, descriptors and the helpers' answers are arbitrary, so the method tells whether it came that far.
- Mishaps.RefusedDestroy: tells whether the supervisor had memory and descriptors to take the lookup up.
- Hash buckets of supervisor and coordinator are an index from entries to jobs; only the cache keeps its chains, because its lookup is part of what is proved there.
- Structure sizes and limits are symbolic constants; overflow of size computations and buffers of 2^64 bytes are not modelled, an allocation of zero bytes succeeds, and failure paths of the supervisor's creation are left out.
- Missing arguments and, outside the supervisor, times that cannot be represented are refused by the source before anything happens and are not repeated for every operation.
- The fan-out of completions over the two generations of a registry only merges statuses.
- Supervisor.ResolverSupervisor.Count: counters saturate as in the source, and conservation is stated for runs without saturation.
- Supervisor.ResolverSupervisor.Drain: what a helper sends is an arbitrary sequence of answers, protocol violations and ends; that completed answers are well-formed is proved in IpcAssembly and IpcBudget.
- Resolution.RouteResolution.EntryTerminalObserve: service observation walks the dependency list as it was when the observation began, as the list of an owner entry does not change underneath it.
- Wire.PacketReader.NumberRun: fields are read in runs rather than by single calls, in the same order.
- Supervisor.ResolverSupervisor.AnswerDispose: what the cache makes of an answer is an arbitrary status; which answers it takes is proved in Cache.
- Supervisor.ResolverSupervisor.Schedule: the cached view of the entry at the time is an input (src/resolver/supervisor.c:1226-1232); a waiter passes what its evaluation saw.
- Supervisor.ResolverSupervisor.constructor: a creation that fails leaves nothing and is not modelled.
- Waiter.RouteWaiter.constructor: creation failures are left out; that a waiter retains its generation is part of Generations.
- Rewrite.Seed.Login: logging, closing sockets and connecting are left out; the proxy header is given.
- DnsLookup.Lookup: a failed query and the limits checked before the answers are read are given statuses; which allocation fails is arbitrary, and the exact result is stated for when none does.
- DnsReply.Resolve: address and service lookups are one model over two kinds of records.
- Relay.Run: sends interrupted forever are not modelled, every run is finite; the idle check is a given verdict per turn, tied to time by Relay.IdleRemainingExactly.
