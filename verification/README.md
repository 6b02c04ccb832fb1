# SEUSS: a verified model of the invocation pipeline

SEUSS runs serverless functions on snapshots of a unikernel. A controller on Linux files an
activation and sends it to an invoker node; the node queues it, one of its cores picks it up and
tries a hot start (an idle instance), then a warm start (a snapshot of the function), then a cold
start (the base snapshot); an HTTP session with the instance produces a result, which travels back
and completes the activation.

This project models that path as a product of small event machines, proves what holds on every run,
and proves the source's stateful objects, as Dafny classes, against the same functions the machines
are made of.

| file | what it holds |
|---|---|
| `Seuss.dfy`, `Sums.dfy` | records; sums for termination measures |
| `WorkQueue.dfy`, `Dispatcher.dfy` | the shared queue, the Poke events of the cores, the 8-bit concurrency counter |
| `HotCache.dfy`, `Snapshots.dfy`, `Instances.dfy` | hot-instance cache of a core, shared snapshot cache, who owns an instance |
| `Session.dfy` | the HTTP session: promises, timer, requests |
| `Wire.dfy`, `Controller.dfy` | messages between the two sides, the table of pending activations (with their classes) |
| `Pipeline.dfy` | the composed system and its invariant |
| `ActivationSpec.dfy`, `PipelineTheorems.dfy` | the client's view (pending, done) and refinement, completion and payload theorems |
| `PipelineSteps.dfy`, `PipelineIsolation.dfy` | what single steps come to: start choice, replies, ends; isolation of functions from end to end |
| `PipelineProgress.dfy` | termination, rest, exactly-once |
| `EmptyArguments.dfy` | when the assertion on empty payloads fails |
| `Ports.dfy`, `Invoker.dfy`, `InvocationSession.dfy`, `Node.dfy` | port arithmetic, the remaining classes, and their simulation of the dispatcher |

## Main results

- No lost wakeup: on every core that may run work, queued requests are covered by pending Pokes, or
  the core's frames and Pokes reach its limit, although saturated cores throw Pokes away.
- A node that comes to rest has served everything exactly when its limit is positive and it has a
  second core. The 8-bit counter is exact exactly when the limit fits into 8 bits (or nothing ever runs).
- Invocations are started in the order in which they were added.
- A reuse limit below 65535 bounds the hot starts of an instance, over all cores, by limit + 1; a core's
  cache is bounded exactly then, because at 65535 the 16-bit count wraps first.
- Every instance has one owner and serves one function; snapshots are write-once, bounded, never leaked.
- A start is hot, warm or cold exactly as the caches say, on that very instance or snapshot; activations whose
  revisions hash differently never share an instance or a snapshot.
- The instance of a session that closed is kept exactly when the limits allow it, any other is halted.
- An answer is everything from the first brace of a response; it is reported once, with the times measured.
- A session sends at most one `/run` exactly when it was given code; a session without code whose
  result reads `{"OK":true}` sends a second one.
- A session ends in order (no timer set after its terminal event, no local event left when it finished)
  exactly when Connected does not come after the terminal event. A connection that is established after
  the timeout, before the abort is handled, breaks it.
- The pipeline refines `pending -> done`: at most one completion per activation, with its own data and a result of
  its own sessions, whatever retries and late replies there are.
- Without new activations and unasked answers every run is finite. A run at rest has completed exactly
  what was answered, also when the node went down; if the node is up it has served everything.
- The node goes down exactly when a cold start fails or a request without arguments gets as far as its
  `/run`; so an activation can do the latter exactly when its arguments are empty.

Where code and comments differ, the code is modelled: a reuse limit of R lets an instance be saved R + 1
times; a failed request is reported with status 0 like a good one; port 65535 is never handed out; the header
declares the last two parameters of `SendRequest` in the other order than the definition takes them.

## Assumptions about the environment

- Transaction ids are never reused, and the hashes of transaction and revision strings are injective on the ids in
  use. Function ids and instance ids are not null, new instance ids and captured snapshots are fresh.
- One fixed I/O core runs `AddWork`. Events of one core do not interrupt each other and run up to
  the next `Block`; local events run in the order they were spawned; messages arrive, in any order.
- A session sees one terminal event (close, abort, timeout, failed request). Connected and good answers may
  follow it. An instance answers only after a request, each time in one buffer that contains a brace; that it
  answers each request once is assumed only where runs are shown to be finite. The clock is monotone.
- When the node is down the controller goes on: it takes activations and the replies already sent.
- `SetSnapshot` is one atomic step. The UM manager knows an instance until its `SignalHalt` runs.
- A promise's continuation runs inside `SetValue`.

## Model

| member | source | states |
|---|---|---|
| `WorkQueue.AddAppends` | src/SeussInvoker.cc:54-64 | queue plus table is a FIFO of invocations: adding a new transaction appends its invocation |
| `WorkQueue.TakeServesOldest` | src/SeussInvoker.cc:78-90 | taking yields the oldest invocation and leaves the rest; the front always has a table entry |
| `Dispatcher.StepInv` | src/SeussInvoker.cc:54-90 | every AddWork, Poke and return keeps conservation, counters and the wakeup condition of every core |
| `Dispatcher.ServedInOrder` | src/SeussInvoker.cc:54-90 | each event: arrivals go to the end, a Poke starts the oldest waiting invocation or changes nothing but its own count |
| `Dispatcher.StartedInOrderAdded` | src/SeussInvoker.cc:54-90 | over every run what was added is what was started, in the same order, followed by what is queued |
| `Dispatcher.WorkIsConserved` | src/SeussInvoker.cc:54-90 | in every run each accepted transaction is queued, live on one core, or finished, exactly one of these, with its own invocation |
| `Dispatcher.NoLostWakeup` | src/SeussInvoker.cc:66-75 | in every run a core other than the I/O core has a Poke for each queued request or frames plus Pokes at its limit; so with room and work it has a Poke |
| `Dispatcher.IoCoreNeverRuns` | src/SeussInvoker.cc:69-74 | the I/O core is never poked and never runs an invocation |
| `Dispatcher.QuiescentIsDrained` | src/SeussInvoker.cc:310-340 | a node at rest with a positive limit and two cores has an empty queue and has finished all it accepted |
| `Dispatcher.StrandsOne` | src/SeussInvoker.cc:310-319 | with limit 0 or a single core there is a run that comes to rest with a request queued |
| `Dispatcher.DrainsExactlyWhen` | src/SeussInvoker.cc:310-340 | every run at rest has served everything if and only if limit >= 1 and cores >= 2 |
| `Dispatcher.RunsAreBounded` | src/SeussInvoker.cc:310-340 | without arrivals a run is no longer than 3 queued + 2 live + Pokes |
| `Dispatcher.CounterIsExactWhen` | src/SeussInvoker.h:114-140 | the 8-bit counter equals the live frames, and these stay within the limit, in all runs if and only if the limit is below 256 or there is one core |
| `HotCache.WithoutFirstCuts` | src/SeussInvoker.cc:466-470 | taking an entry removes just that one from the fifo and keeps the order of the others |
| `HotCache.SavedValid` | src/SeussInvoker.cc:501-533 | a save keeps the fifo duplicate-free, equal to the map's keys and within the limit |
| `HotCache.TakenValid` | src/SeussInvoker.cc:461-472 | a take keeps the same |
| `HotCache.RunInv` | src/SeussInvoker.cc:453-534 | over every sequence of saves and takes the cache is valid and counts are right; every save but a current one was a hot start |
| `HotCache.ReuseBound` | src/SeussInvoker.cc:484-495 | with a reuse limit R below 65535 the stored count is the number of saves and that is at most R + 1 |
| `HotCache.Cycle` | src/SeussInvoker.cc:515-522 | one instance can be saved and taken any number of times up to R + 1, and without end when R = 65535 |
| `HotCache.ReuseIsBoundedWhen` | src/SeussInvoker.cc:477-522 | reuse is bounded by R + 1 in all runs if and only if R < 65535 or the cache is disabled |
| `HotCache.BoundsAreAttained` | src/SeussInvoker.cc:477-533 | both limits are used up: runs that keep n idle instances for every n up to the limit, and that save one instance exactly R + 1 times |
| `Snapshots.OfferInv` | src/SeussInvoker.cc:107-134 | a captured snapshot is installed if its function has none and there is room, deleted once otherwise; nothing installed changes |
| `Snapshots.KeptExactlyWhen` | src/SeussInvoker.cc:107-134 | a captured snapshot is kept if and only if its function has none and fewer than 32768 are cached, else deleted; the rest of the cache is unchanged |
| `Instances.SaveObligations` | src/SeussInvoker.cc:497-528 | when an instance is saved its ids are not null, it is not idle already, and the UM manager still knows it |
| `Instances.HotEntryIsAlive` | src/SeussInvoker.cc:551-558 | a listed instance is not null and alive: the lost-instance branch and the abort of get_hot_instance are dead |
| `Instances.StartsAs` | src/SeussInvoker.cc:326-586 | a start is hot iff enabled and the core lists a live instance of the function, and uses that instance; else warm iff a snapshot is cached, and boots it; else cold, with a checkpoint iff fewer than 32768 snapshots are cached |
| `Instances.EndsAs` | src/SeussInvoker.cc:477-655 | an instance is kept iff its session closed, the cache has room, its count is within the limit and none is idle for its function; else it is told to halt |
| `Instances.StepInv` | src/SeussInvoker.cc:348-586 | every start, end, capture and halt keeps ownership, isolation and the caches' invariants |
| `Instances.InstancesAreSinglyOwned` | src/SeussInvoker.cc:497-534 | in every run an instance is in exactly one of: one session, one cache entry, halt signalled once |
| `Instances.FunctionsAreIsolated` | src/SeussInvoker.cc:366-432 | in every run an instance serves one function; idle instances and snapshots hold the code of the function they are kept under |
| `Instances.HotStartsAreBounded` | src/SeussInvoker.cc:477-495 | in every run with a reuse limit R below 65535 an instance is started hot at most R + 1 times, counted over all cores, and a core keeps at most its limit idle |
| `Instances.SnapshotsAreWriteOnce` | src/SeussInvoker.cc:107-134 | over any continuation an installed snapshot stays and a deleted one is not deleted again |
| `Instances.SnapshotsDoNotLeak` | src/SeussInvoker.cc:366-376 | at most 32768 cached; each captured snapshot is installed or deleted once, also when cold starts of one function overlap |
| `Session.PromisesAreOneShot` | src/InvocationSession.cc:14-80 | over every event order each promise but the result is set at most once, and the result exactly if no more answers come than one and an acknowledgement; Connect finds the session unconnected; a local event is left at the finish only if Connected came after the terminal event |
| `Session.TimerIsSafe` | src/InvocationSession.cc:82-113 | the flag agrees with the timer, which is armed for 5 s after Connect or 60 s after Connected and always set while the session waits; the callback aborts exactly when it is set and due; it is set after a terminal event only if Connected came later |
| `Session.ConnectsLate` | src/InvocationSession.cc:24-47 | the run Connect, timeout, Connected, aborted event: the timer is set again after the abort, and the connected event is left at the finish |
| `Session.CleanExactlyWhen` | src/InvocationSession.cc:24-52 | in a run no timer is ever set after the terminal event and no local event is left at the finish if and only if Connected does not come after the terminal event |
| `Session.ColdProtocol` | src/SeussInvoker.cc:598-620 | with code, for every sequence of answers: at most one /init then one /run, and /run only after the acknowledgement |
| `Session.Classification` | src/InvocationSession.cc:71-79 | the first acknowledgement, which reads {"OK":true}, triggers /run; every other answer is the result, also a second acknowledgement |
| `Session.ReceiveTakes` | src/InvocationSession.cc:54-80 | for every response: the answer is everything from its first brace on and becomes the reply unless it reads {"OK":true} on an uninitialised session; the session fails iff the first line is not HTTP/1.1 200 OK |
| `Session.FirstLineDecides` | src/InvocationSession.cc:60-63 | the first line is what precedes the first carriage return, or everything |
| `Session.RunsTwice` | src/InvocationSession.cc:72-75 | a run of a session without code that sends /run twice |
| `Session.RunsOnceExactlyWhen` | src/SeussInvoker.cc:602-620 | at most one /run in all runs, for every sequence of answers, if and only if the session has code |
| `Session.SentRequests` | src/SeussInvoker.cc:598-620 | at most one /init and two /run; every request is /init with the code and keep-alive or /run with the arguments and without |
| `Session.NeverStuck` | src/InvocationSession.cc:14-52 | an unfinished session always has a next event of its own, at the latest its timer |
| `Session.SessionsEnd` | src/InvocationSession.cc:14-113 | each event but an answer nobody asked for uses up one of at most seven |
| `Session.AnswersGoOn` | src/InvocationSession.cc:54-80 | answers nobody asked for are accepted any number of times, so the bound needs that exception |
| `Session.SendsEmptyWhen` | src/InvocationSession.cc:115-117 | the payload assertion fails exactly when /run is sent without arguments |
| `Session.StepReports` | src/InvocationSession.cc:49-80 | a result comes only from a response and is its text from the first brace on; success only from the close event |
| `Session.PayloadArrives` | src/InvocationSession.cc:141-156 | the body of a request contains the payload without its newlines, unchanged if it has none |
| `Session.NewlinesAreDropped` | src/InvocationSession.cc:148 | dropping newlines works character by character and keeps the order of the others |
| `Session.RequestText` | src/InvocationSession.cc:141-165 | the text of a request: POST line with the path, content type, keep-alive line iff asked for, the true length of the body in decimal, and the body around the payload |
| `Session.StartTimes` | src/InvocationSession.cc:125-129 | over every run the start times are those of the last /run and the last /init |
| `Session.InitTimeIsWhole` | src/InvocationSession.h:82-87 | the init time is the whole milliseconds from the last /init to the acknowledgement |
| `Wire.RequestArrives` | src/SeussChannel.cc:56-119 | a request is taken in as it was sent if and only if its header states the true argument size or there is no payload |
| `Wire.ReplyArrives` | src/SeussChannel.cc:30-54 | a reply always arrives with its result |
| `Wire.DecodePartitions` | src/SeussChannel.cc:97-119 | a payload that is accepted is split into arguments and code without loss |
| `Wire.SeussChannel.SendRequest` | src/SeussChannel.cc:56-77 | builds the encoded request in a buffer |
| `Wire.SeussChannel.SendReply` | src/SeussChannel.cc:30-54 | builds the encoded reply on the I/O core, hands it over elsewhere |
| `Wire.SeussChannel.ReceiveMessage` | src/SeussChannel.cc:79-146 | decodes and dispatches, and remembers the I/O core |
| `Controller.ResolveOnce` | src/SeussController.cc:112-142 | a reply completes its transaction exactly if there is a record: with its names, with duration and init time, status and result of the reply; a second reply changes nothing |
| `Controller.Controller.ScheduleActivation` | src/SeussController.cc:48-110 | files the record under the hash of the transaction and sends, from the CPU of the first node and to that node, the hash of the revision as function id, the arguments with their true size and the given code, or the fetched one if none is given |
| `Controller.Controller.ResolveActivation` | src/SeussController.cc:112-142 | removes the record and fulfils its promise with the record's names, duration from the run time, the init time, start and end 0, the status and the result; without a record nothing |
| `Controller.Controller.RegisterNode` | src/SeussController.cc:29-42 | nodes are kept in order of registration; a new one gets the CPU reserved for its number, an old one keeps its own |
| `Controller.ReservedCpuExistsWhen` | src/SeussController.cc:32-34 | the reserved index is that of a CPU if and only if there are no more nodes than CPUs or a multiple of them |
| `Controller.ReservedCpuIs` | src/SeussController.cc:32-34 | the n-th node gets the CPU with index cpus - n; beyond the CPUs the index is the remainder that is not positive |
| `Controller.ReservedCpusAreDistinct` | src/SeussController.cc:32-34 | up to the number of CPUs, nodes get CPUs of their own |
| `Controller.Controller.Ready` | src/SeussController.cc:44-46 | ready iff some node is registered |
| `Pipeline.StepInv` | src/SeussInvoker.cc:54-658 | every event of the composed system keeps the invariant that ties the components together |
| `Pipeline.AcceptRequest` | src/SeussChannel.cc:97-129 | a request taken in is exactly the scheduled invocation, and not one accepted before |
| `Pipeline.StopsExactlyWhen` | src/SeussInvoker.cc:326-336 | the node goes down exactly when the cold attempt of a request has failed or a request without arguments sends its /run; no other assertion fails and a node that is down stays down |
| `PipelineTheorems.NoAssertionFails` | src/SeussInvoker.cc:54-534 | in every run of the whole pipeline none of these assertions fails: src/SeussInvoker.cc:63, 86, 498, 499 and 526, the insert at src/SeussController.cc:91, the payload split at src/SeussChannel.cc:107, a connected session at src/InvocationSession.cc:16 |
| `EmptyArguments.ArgumentsSuffice` | src/InvocationSession.cc:115-117 | in a run whose activations all have arguments the payload assertion never fails |
| `EmptyArguments.EmptyArgumentsFail` | src/InvocationSession.cc:115-117 | for every activation without arguments, with or without code, a run in which it fails |
| `EmptyArguments.TakesNodeDownExactlyWhen` | src/InvocationSession.cc:115-117 | an activation can make it fail if and only if its arguments are empty |
| `PipelineTheorems.StepRefines` | src/SeussController.cc:77-142 | every event is invisible to the client, submits one activation or completes one pending activation with a report of its sessions |
| `PipelineTheorems.StepSeen` | src/SeussController.cc:77-142 | scheduling makes exactly that activation pending, delivering a reply to a pending one completes it with the result and times of that reply, nothing else is seen |
| `PipelineTheorems.PipelineRefinesSpec` | src/SeussController.cc:48-142 | every run of the pipeline is a run of the pending/done specification |
| `PipelineTheorems.CompletedAtMostOnce` | src/SeussController.cc:112-142 | at most one completion per transaction, with its own activation's data, the result, duration and init time that one of its own sessions reported, and status 0 |
| `PipelineTheorems.ResultsComeFromSessions` | src/SeussInvoker.cc:623-631 | a report for a transaction comes from a response to its own session, which had sent a request and has the arguments scheduled for it: the text from the first brace on, the run time in whole milliseconds since the last /run, the measured init time or 1 for a warm start |
| `PipelineTheorems.NodeStaysSafe` | src/SeussInvoker.cc:54-586 | conservation, wakeups, ownership and isolation hold in every state of the whole pipeline |
| `PipelineTheorems.PayloadsAreIntact` | src/SeussInvoker.cc:598-620 | what a session sends is the code and arguments scheduled for its transaction, never empty |
| `PipelineSteps.PokeStarts` | src/SeussInvoker.cc:310-334 | a Poke with room and work begins the oldest request: hot iff enabled and a live instance of its function is idle on the core, on that instance; else warm iff a snapshot is cached, booted from it without code; else cold with the code and, with room, a checkpoint. Otherwise nothing begins |
| `PipelineSteps.RetryStarts` | src/SeussInvoker.cc:326-332 | a failed hot attempt is followed by a warm one iff a snapshot is cached, else by a cold one; a failed warm one by a cold one |
| `PipelineSteps.ReturnFrees` | src/SeussInvoker.cc:338-339 | a return finishes the request, frees its frame and pokes its core |
| `PipelineSteps.AnswerIsSent` | src/SeussInvoker.cc:342-346 | each result sends exactly one reply with the answer, the ids of the invocation, status 0 and the times; other session events send none |
| `PipelineSteps.FinishKeepsOrHalts` | src/SeussInvoker.cc:634-655 | when a session finishes its instance is kept iff it closed and the limits allow it, else told to halt |
| `PipelineIsolation.SessionsRunTheirFunction` | src/SeussController.cc:57-65 | in every run the instance of a session of t was started for the hash of the revision of t, from a snapshot of that function if from any |
| `PipelineIsolation.FunctionsStayApart` | src/SeussInvoker.cc:366-432 | activations with different revision hashes never share an instance or a snapshot, at the same or at different times of a run |
| `PipelineIsolation.SessionsAreRuns` | src/SeussInvoker.cc:589-658 | the session of every frame has come through a run of the session machine from its own arguments and code |
| `PipelineProgress.StepUses` | src/SeussInvoker.cc:310-340 | each event but a new activation or an unasked answer lowers the total of what is left, through hot, warm and cold phases |
| `PipelineProgress.RunsAreBounded` | src/SeussInvoker.cc:310-340 | without new activations and unasked answers a run of the pipeline is no longer than that total |
| `PipelineProgress.RestIsEmpty` | src/SeussInvoker.cc:397-403 | when only new activations and checkpoints never hit are left to happen, a node that is up holds no message, frame or Poke: blocked frames always get going again |
| `PipelineProgress.ComesToRest` | src/SeussInvoker.cc:310-340 | from every reachable state the pipeline comes to rest by itself |
| `PipelineProgress.MaximalRunsServe` | src/SeussInvoker.cc:310-340 | a run at rest has completed exactly the answered activations, and if the node did not go down it has served every scheduled one |
| `PipelineProgress.ExactlyOnce` | src/SeussInvoker.cc:633-647 | if instances close only after answering, an invocation that returned is completed, once, or has its reply under way, and is completed when the replies are drained, also when the node went down; at rest with the node up every activation is completed |
| `Ports.PortOf` | src/SeussInvoker.h:130-137 | every port lies in 49160..65534 |
| `Ports.CounterIsLinear` | src/SeussInvoker.h:133-134 | after n calls the 16-bit counter is n times the cores modulo 65536 |
| `Ports.CollideExactlyWhen` | src/SeussInvoker.h:130-137 | two calls give the same port iff d·cores − 65536·w is a multiple of 16375 |
| `Ports.WindowIsDistinct` | src/SeussInvoker.h:130-137 | in a window shorter than the range calls collide iff the counter wrapped between them and they are 36 apart |
| `Ports.CoresAreDistinct` | src/SeussInvoker.h:130-137 | calls on any two cores, in one round of the counter and less than the range apart, get different ports |
| `Invoker.InvokerRoot.AddWork` | src/SeussInvoker.cc:54-76 | queues the invocation and pokes every core but the caller's once, from any offset |
| `Invoker.InvokerRoot.GetWork` | src/SeussInvoker.cc:78-90 | hands out the oldest invocation, or nothing |
| `Invoker.InvokerRoot.CacheIsFull` | src/SeussInvoker.h:51 | full at 32768 snapshots |
| `Invoker.InvokerRoot.GetSnapshot` | src/SeussInvoker.cc:97-105 | the cached snapshot of the function, if any |
| `Invoker.InvokerRoot.SetSnapshot` | src/SeussInvoker.cc:107-134 | keeps the snapshot iff its function has none and fewer than 32768 are cached, else deletes it; entries never change |
| `Invoker.Invoker.constructor` | src/SeussInvoker.h:78-82 | starts idle with limit 1, hot starts disabled, reuse limit 300 |
| `Invoker.Invoker.Poke` | src/SeussInvoker.cc:310-324 | takes and counts the oldest request iff the core has room and there is one; otherwise changes nothing |
| `Invoker.Invoker.EndInvoke` | src/SeussInvoker.cc:338-339 | gives up the frame and spawns one Poke on the own core |
| `Invoker.Invoker.HotInstanceExists` | src/SeussInvoker.cc:453-459 | whether an instance is idle for the function |
| `Invoker.Invoker.HotInstanceCanBeReused` | src/SeussInvoker.cc:477-495 | fewer idle instances than the limit, and a count of at most the reuse limit |
| `Invoker.Invoker.SaveHotInstance` | src/SeussInvoker.cc:497-534 | saves iff there is room, the count is within the limit and none is idle for the function; map, fifo and count are updated, the instance set inactive and then signalled to yield; else nothing changes |
| `Invoker.Invoker.GetHotInstance` | src/SeussInvoker.cc:461-475 | unlists the idle instance of the function from map and fifo |
| `Invoker.Invoker.FindHotStart` | src/SeussInvoker.cc:542-558 | the lookup of a hot start, with the lost-instance case |
| `Invoker.Invoker.GetInternalPort` | src/SeussInvoker.h:133-137 | advances the counter by the cores; the port is 49160 plus counter and core number modulo 16375 |
| `InvocationSession.InvocationSession.Connect` | src/InvocationSession.cc:14-22 | sets and arms the 5 s timeout |
| `InvocationSession.InvocationSession.Connected` | src/InvocationSession.cc:24-33 | replaces it by the 60 s timeout and spawns the connected event |
| `InvocationSession.InvocationSession.Close` | src/InvocationSession.cc:35-41 | clears the timer, spawns the closed event |
| `InvocationSession.InvocationSession.Abort` | src/InvocationSession.cc:43-47 | clears the timer, spawns the aborted event |
| `InvocationSession.InvocationSession.Finish` | src/InvocationSession.cc:49-52 | clears the timer, sets the result of the session |
| `InvocationSession.InvocationSession.Receive` | src/InvocationSession.cc:54-80 | a failed request aborts and is still taken as an answer; the reply is everything from the first brace |
| `InvocationSession.InvocationSession.EnableTimer` | src/InvocationSession.cc:82-90 | arms the timer once, truncated to microseconds |
| `InvocationSession.InvocationSession.DisableTimer` | src/InvocationSession.cc:92-98 | stops the timer and clears the timeout |
| `InvocationSession.InvocationSession.Fire` | src/InvocationSession.cc:100-113 | aborts only on a set and expired timeout |
| `InvocationSession.InvocationSession.SendHttpRequest` | src/InvocationSession.cc:115-132 | sends the framed payload and notes the start time of /init and /run |
| `InvocationSession.InvocationSession.HttpPostRequest` | src/InvocationSession.cc:141-166 | builds the text of the HTTP/1.0 request (RFC 1945) and remembers it |
| `InvocationSession.InvocationSession.SetConnected` | src/SeussInvoker.cc:598-610 | on connection sends /init if there is code, else /run |
| `InvocationSession.InvocationSession.SetInitialized` | src/SeussInvoker.cc:613-620 | on initialisation notes the init time and sends /run |
| `InvocationSession.InvocationSession.SetClosed` | src/SeussInvoker.cc:634-639 | a close finishes the session with success |
| `InvocationSession.InvocationSession.SetAborted` | src/SeussInvoker.cc:650-651 | an abort finishes it with failure |
| `Node.AddWork` | src/SeussInvoker.cc:54-76 | the objects after AddWork represent the machine's next state |
| `Node.RunPoke` | src/SeussInvoker.cc:310-324 | the objects after a Poke event represent the machine's next state, and the work handed out is its new frame |
| `Node.EndInvoke` | src/SeussInvoker.cc:338-339 | the objects after a return represent the machine's next state |

## Left out

- The UM manager, ELF loader, page state and snapshot capture: an instance is an id with a function and a place; the umm sources are not part of this model.
- EbbRT futures, messenger, TCP and timer internals: promises, event counts, message bags and an armed deadline stand for them.
- `Bootstrap` is reduced to the flag that it ran once.
- The chained-buffer branch of `ReceiveMessage` (src/SeussChannel.cc:101-103) and the 33-byte copy of the activation id (src/SeussController.cc:65).
- Controller.Controller.ResolveActivation: leaves out the `waitTime` annotation (src/SeussController.cc:127-134), which subtracts times of two machines.
- The assertion on a session's source port (src/InvocationSession.cc:17) is a precondition of the class method; every port of `Ports.PortOf` is at least 49160. The abort of `get_hot_instance` (src/SeussInvoker.cc:473) stands behind a test that the entry exists; see `Instances.HotEntryIsAlive`.
- Two hops are merged into the message in flight: the spawn onto the I/O thread before `SendRequest` and the hand-over of a reply to the I/O core.
- Locks are not modelled; what they make atomic is one event. `SetSnapshot` takes none, its atomicity is assumed.
- Lengths, times and identifiers are unbounded; only the 8-bit counter, the 16-bit usage count, the 16-bit port counter and the 16-bit limits have their widths.
- The command line parsing of the limits, node allocation, Kafka, CouchDB, JSON and the benchmark driver: input and output plumbing.
- `dsys/MemberSet.h`: no user of it is shown.
- What runs on a deleted session: the pipeline drops the local events and the timer that `Session.CleanExactlyWhen` shows can be left. A second terminal event, such as a timer that was set again and expires before the abort is handled, is excluded by the assumptions above.
- What EbbRT does when a promise is set twice: the model runs the continuation again.
