# Verification of the telemetry pipeline

A Dafny model of the hard core of trpc-opentelemetry, with proofs of what it keeps in every run. `dafny verify
dfyconfig.toml` checks all of it.

- **Batch span processor.** `SpanPipeline` is a step relation over the shared state of
  `sdk/trace/batch_span_processor.go`: any number of OnEnd and ForceFlush calls, one worker with a run phase and a
  drain phase, a timer with a one-slot channel, Shutdown. One action is one atomic step of one goroutine (a channel
  operation, a timer call, a lock, the start or the return of an export). `SpanInvariants` and `SpanTheorems` hold the
  inductive invariant, `SpanGuarantees`, `SpanRelease`, `SpanMiss` and `SpanPacket` what follows from it.
  `SpanProcessor` is the code of the worker, OnEnd and ForceFlush as written, in a class, with the other goroutines
  taking arbitrary steps at every pause; it is shown to be a run of `SpanPipeline`, so all guarantees hold of it. The
  design is section "Batching processor" of the OpenTelemetry Tracing SDK specification.
- **Log batchers.** `LogBatching` is the worker of `sdk/log/batch_processor.go` and `otelzap/writer.go`, which owns its
  batch; one option tells the two drain loops apart.
- **Exporters.** `Reconnect` is the one-token reconnect protocol of both exporters as a step relation, `ReconnectLoop`
  the code run against interference. `AsyncBatches` is the async exporter's pool, with the heap of batch arrays made
  explicit so that reuse and aliasing are visible; `AsyncWorkers` is its code run against interference.
- **Return codes.** `CodeSort`, `CodeMapping`, `CodeApplies` and `RemoteConfig`: the specificity sort, the first-match
  lookup, when its answer applies, and the configurator with its registered converters.
- **Metrics.** `Cardinality` (the limiting collector and gatherer), `LabelHash` (FNV-1a, section 2 of
  draft-eastlake-fnv) and `MetricCache` (the vectors found by hash).
- **Sampling** (`Sampling`), **retrying** (`Retry`), **text cut to a limit** (`Utf8`, section 4 of RFC 3629, and
  `Truncation`).

Environments are inputs: how an export, a dial or a call ends, what the timer, the garbage collector, the random
generator and the other goroutines do, and which ready case a select takes.

## What the code does not do

Where the code and its documentation disagree the model follows the code, and the exact condition is proved.

- `drainQueue` does not recognise flush markers. A ForceFlush call whose marker is still queued when processQueue
  returns can never be released and its marker is exported as if it were a span (`SpanRelease.ReleasableIff`,
  `SpanGuarantees.ForceFlushCanHang`).
- ForceFlush is documented to export all ended spans. It does unless the processor is stopped or its context done
  (`SpanMiss.ForceFlushKeepsPromise`); called on a stopped processor it returns nil having exported only the current
  batch (`SpanMiss.UndisturbedMissIff`, `SpanMiss.ForceFlushCanMissIff`).
- The log batchers' Enqueue has no recover: a sender panics exactly if it passed its stop check and its send comes after
  the drain loop closed the queue (`LogBatching.BatchProcessor.Enqueue`,
  `LogBatching.PanicsIffAfterClose`).
- The span drain loop and that of `sdk/log` ignore the packet limit, otelzap's does not. Every exported batch obeys it
  exactly if batches hold one item or the drain loop looks at sizes (`SpanPacket.PacketRuleIff`,
  `LogBatching.DrainPacketRuleIff`).
- A comment says that service takes precedence over method. The comparator makes service-only and method-only entries
  each less than the other, so every remote update turns mixed entries around and a torn query's answer flips
  (`CodeSort.ServicePrecedesIff`, `CodeSort.SortIdempotentIff`, `CodeMapping.ResortKeepsAnswerIff`,
  `CodeMapping.TornAnswerIff`, `CodeMapping.TornAnswersAlternate`).
- An empty service or method of an entry is documented as a full match, so a given one must be the query's. `matchCode`
  takes an entry if either name is the query's, whatever the other says; the exact conditions for the answer to apply
  are `CodeApplies.LookupRightIff` and `CodeApplies.LocalAnswerAppliesIff`, inputs that fail are
  `CodeApplies.HalfMatchHides` and `CodeApplies.EmptyMethodHides`.
- Name and first label have no separator in the hash, and the record name is not hashed: different metrics can share a
  vector, and a second record's reports carry the first record's `_name` (`LabelHash.StreamsAgreeIff`,
  `MetricCache.ComposeMetricVec.OwnNameIff`).
- `fixStringTooLong` panics for limits below 22 (`Truncation.FixPanicsIff`).
- MaxElapsedTime is documented as the time spent on one request, and InitialInterval as the wait after its first
  failure. The backoff is reset once, when the request function is made, and shared by all requests
  (`Retry.NeverRetriedIff`, `Retry.IntervalStaysIff`).
- At MaxInterval the delay is documented to be always MaxInterval. It is randomised around it
  (`Retry.BackoffRange`, `Retry.BackoffIsMaxIff`, `Retry.BackoffAlwaysMaxIff`).
- ExportLogs of the async exporter has a recover for the closed channel, but the text it compares with is never the
  runtime's: a call panics exactly if its send comes after Shutdown closed the channel (`AsyncBatches.PanicsIff`,
  `AsyncBatches.OverlapPanics`, `AsyncBatches.OverlapAccepted`).
- Gather hands families to the processor exactly when nothing was cut off (`Cardinality.Gather`).

## Model

| member | source | states |
|---|---|---|
| SpanGuarantees.NothingLost | sdk/trace/batch_span_processor.go:269-418 | Under every interleaving of OnEnd, ForceFlush, worker, timer and Shutdown, the accepted spans are, in order, those of the batches handed to the exporter, then the current batch, the worker's hand and the queue; while processQueue runs no marker gets into a batch |
| SpanGuarantees.ForceFlushDelivers | sdk/trace/batch_span_processor.go:198-224 | Once the export ending a ForceFlush call is over and the call's marker had been accepted, every span accepted before the marker belongs to an ExportSpans call that has returned, whichever goroutine made it |
| SpanGuarantees.MarkerClosedOnlyByProcessQueue | sdk/trace/batch_span_processor.go:320-324 | A marker gets closed by a step if and only if that step is processQueue receiving that marker |
| SpanGuarantees.WaitingMarkerQueued | sdk/trace/batch_span_processor.go:306-340 | While processQueue runs, the marker of a waiting call that is not closed is still in the queue |
| SpanGuarantees.DrainNeverReleases | sdk/trace/batch_span_processor.go:342-371 | Over any run after processQueue returned, a call still waiting is never released: it waits on or ends by its own context |
| SpanRelease.ReleasableIff | sdk/trace/batch_span_processor.go:198-224 | A waiting ForceFlush call with an unclosed marker can still be released if and only if processQueue has not returned; and then every run releases it in which processQueue goes on and receives as many items as are queued |
| SpanRelease.MarkerClosedByReceives | sdk/trace/batch_span_processor.go:306-340 | In every run after which processQueue still runs and has received more than k items, the marker at position k of the queue is closed; before that it is as much nearer to the head |
| SpanRelease.MarkerReached | sdk/trace/batch_span_processor.go:306-340 | Such a run exists from every state in which processQueue runs, ending any export under way first |
| SpanRelease.BackToSelect | sdk/trace/batch_span_processor.go:306-340 | From any point inside the run loop there is a run back to its select with the queue untouched |
| SpanMiss.ForceFlushKeepsPromise | sdk/trace/batch_span_processor.go:197-224 | The documented promise: over any run after which the processor is not stopped and in which the call's context was not done, a ForceFlush call that returned nil has delivered everything accepted before it began |
| SpanMiss.UndisturbedMissIff | sdk/trace/batch_span_processor.go:198-224 | A call about to begin, disturbed by no Shutdown and no done context, can return nil with an earlier accepted span not exported if and only if the processor is stopped already and a span is still in the queue or in the worker's hand |
| SpanMiss.ForceFlushCanMissIff | sdk/trace/batch_span_processor.go:198-224 | With Shutdown allowed to come before the stop check, the call can miss a span if and only if one is in the queue or in the worker's hand when it begins |
| SpanMiss.NothingMissed | sdk/trace/batch_span_processor.go:198-224 | If queue and hand hold no span when a ForceFlush call begins, then whenever it has returned nil, after any run, everything accepted before it belongs to a returned export |
| SpanMiss.LateCall | sdk/trace/batch_span_processor.go:395-399 | A call to a stopped processor can be over, with nil and undisturbed, before anything else has left the queue |
| SpanGuarantees.ForceFlushCanHang | sdk/trace/batch_span_processor.go:344-371 | A reachable state in which the worker has ended, the flush marker itself was exported as a span, and the ForceFlush call still waits |
| SpanGuarantees.TimerNeverBlocks | sdk/trace/batch_span_processor.go:331-333 | Whenever the worker waits at `<-timer.C` after a failed Stop a value is there, although ForceFlush resets the timer unsynchronised; at the select the timer is armed or has fired |
| SpanGuarantees.TimerHistory | sdk/trace/batch_span_processor.go:269-340 | In every run the timer is armed if and only if it was reset since it last fired or was stopped, or did neither yet, and a tick waits in its channel if and only if none was received since it last fired |
| SpanGuarantees.DroppedCounted | sdk/trace/batch_span_processor.go:412-416 | In every run the dropped counter counts the OnEnd calls that took the default branch, and each of them met the queue open and full without BlockOnQueueFull |
| SpanGuarantees.BatchBounds | sdk/trace/batch_span_processor.go:421-433 | The queue stays within its capacity, no exported batch is empty, none exceeds MaxExportBatchSize, and those exported by the run loop are below MaxPacketSize without their last span |
| SpanPacket.PacketRuleIff | sdk/trace/batch_span_processor.go:349-361 | Every batch ever exported, in every run, obeys the packet rule if and only if MaxExportBatchSize is one: the drain loop does not look at sizes |
| SpanPacket.BothExported | sdk/trace/batch_span_processor.go:349-361 | For any other MaxExportBatchSize there is a run in which any two given spans, drained one by one, go out in one batch |
| SpanGuarantees.WorkerEndComplete | sdk/trace/batch_span_processor.go:344-371 | When the worker has ended: queue closed and empty, batch empty, all export calls returned, and the exported batches hold exactly the accepted spans, once, in order |
| SpanGuarantees.NoExportAfterShutdown | sdk/trace/batch_span_processor.go:163-185 | From the exporter's Shutdown on, over any further run, no ExportSpans call is under way or begins and nothing more is accepted, whatever calls are in flight |
| SpanGuarantees.NoDeadlock | sdk/trace/batch_span_processor.go:269-371 | Once stopped, a worker that has not ended can move, or the ForceFlush export holding the mutex can return |
| SpanGuarantees.ClosedOnce | sdk/trace/batch_span_processor.go:367-368 | Whenever the drain loop is about to close the queue it is still open, whatever senders did since it was found empty |
| SpanGuarantees.StepsLeftStep | sdk/trace/batch_span_processor.go:344-371 | While draining, every worker step uses up one of the steps left and no step of any other goroutine adds one |
| SpanGuarantees.DrainTerminates | sdk/trace/batch_span_processor.go:344-371 | From the moment processQueue returns the worker takes at most ten steps per queued or in-flight item, plus ten, in every run |
| SpanInvariants.MutexStep | sdk/trace/batch_span_processor.go:269-301 | Every step keeps: the mutex is held exactly while an export is under way, by the goroutine that made it, and the batch is that call's argument |
| SpanInvariants.ConservationStep | sdk/trace/batch_span_processor.go:269-418 | Every step keeps the accepted spans equal, in order, to handed-over, pending, in hand and queued spans |
| SpanInvariants.TimerStep | sdk/trace/batch_span_processor.go:306-340 | Every step keeps: the timer is armed or fired wherever the worker may come to the select or to a Stop |
| SpanInvariants.PhaseStep | sdk/trace/batch_span_processor.go:342-371 | Every step keeps: draining only after the stop signal, the queue closed only while draining, nothing queued once the closed queue was seen, the exporter shut down only after the worker ended |
| SpanInvariants.MarkerFreeStep | sdk/trace/batch_span_processor.go:320-324 | Every step keeps batches free of markers while processQueue runs |
| SpanInvariants.QueueStep | sdk/trace/batch_span_processor.go:401-417 | Every step keeps the queue the unreceived tail of what was accepted |
| SpanInvariants.FlushStep | sdk/trace/batch_span_processor.go:198-224 | Every step keeps, for each ForceFlush call, the count of spans before its marker below what was batched, handed over or returned, as its stage requires |
| SpanTheorems.BoundsWorker | sdk/trace/batch_span_processor.go:325-337 | Every worker step keeps the bounds on queue and batch sizes |
| SpanTheorems.PacketWorker | sdk/trace/batch_span_processor.go:325-337 | Every worker step keeps batchedSize the size of the batch while processQueue runs, and the packet rule |
| SpanTheorems.WaitingWorker | sdk/trace/batch_span_processor.go:320-324 | Every worker step keeps unclosed markers in the queue while processQueue runs |
| SpanTheorems.InvStep | sdk/trace/batch_span_processor.go:269-418 | Every action of every goroutine keeps the whole invariant |
| SpanTheorems.InvRun | sdk/trace/batch_span_processor.go:269-418 | Every run keeps the whole invariant |
| SpanTheorems.ReachableInv | sdk/trace/batch_span_processor.go:118-147 | Every state reachable from a new processor satisfies the whole invariant |
| SpanProcessor.BatchSpanProcessor.constructor | sdk/trace/batch_span_processor.go:118-147 | A new processor starts a run at the select of processQueue |
| SpanProcessor.BatchSpanProcessor.ExportSpans | sdk/trace/batch_span_processor.go:269-301 | Run under any interference it ends in the caller's loop with the batch empty and everything batched before in export calls that have returned, and while draining uses up a step |
| SpanProcessor.BatchSpanProcessor.AppendToBatch | sdk/trace/batch_span_processor.go:325-329 | Appends under the mutex and asks for an export exactly when the count is reached or the size limit is met |
| SpanProcessor.BatchSpanProcessor.StopAndDrainTimer | sdk/trace/batch_span_processor.go:331-333 | The receive after a failed Stop needs no waiting, whatever the others do in between |
| SpanProcessor.BatchSpanProcessor.ReceiveInRun | sdk/trace/batch_span_processor.go:320-324 | Takes the head of the queue; a marker is closed on the spot, a span goes to the hand |
| SpanProcessor.BatchSpanProcessor.ReceiveAndBatch | sdk/trace/batch_span_processor.go:320-337 | Under any interference exactly the head leaves the queue: a span is batched behind all spans batched before, a marker is closed; a full batch is exported before the worker is back at its select |
| SpanProcessor.BatchSpanProcessor.RunRound | sdk/trace/batch_span_processor.go:311-338 | One round, given the case its select takes: a stop leads to the drain loop with the timer stopped; a fired timer exports everything batched so far, in returned calls, whatever the size of the batch; a queued item is batched or closed; a case that is not ready changes nothing |
| SpanProcessor.BatchSpanProcessor.ProcessQueue | sdk/trace/batch_span_processor.go:306-340 | For any cases its selects take and any interference, every round, from where the others left the processor, does what its case asks for, the rounds follow each other in the run, and only a stop ends the loop |
| SpanProcessor.OneMoreBatched | sdk/trace/batch_span_processor.go:320-329 | Between two states with the worker at its select, one more item received is one more item batched, behind all the others, whatever exports came in between |
| SpanProcessor.BatchSpanProcessor.AppendInDrain | sdk/trace/batch_span_processor.go:357-360 | Appends without looking at sizes or markers and asks for an export exactly at MaxExportBatchSize |
| SpanProcessor.BatchSpanProcessor.CloseTheQueue | sdk/trace/batch_span_processor.go:367-368 | The close that follows finding the queue empty, whatever was sent in between, never meets a closed queue, where it would panic |
| SpanProcessor.BatchSpanProcessor.LeaveDrain | sdk/trace/batch_span_processor.go:349-354 | The receive from the closed, empty queue leads to the last export |
| SpanProcessor.BatchSpanProcessor.DrainReady | sdk/trace/batch_span_processor.go:349-366 | A round that finds an item ends back in the loop, exporting at the batch size, and uses up steps |
| SpanProcessor.BatchSpanProcessor.DrainQueue | sdk/trace/batch_span_processor.go:344-371 | Terminates under any interference with the queue closed, queue and batch empty, and every accepted span exported exactly once, in order |
| SpanProcessor.BatchSpanProcessor.EnqueueBlockOnQueueFull | sdk/trace/batch_span_processor.go:377-418 | Under any interference: sent means the item is the last accepted; each refusal names what stood in the way, the stop signal (always, if it was set before), the closed queue, the full queue (only when not blocking) or the done context (only of ForceFlush, and taken within the call); only a blocking call is left waiting, and only with the queue full |
| SpanProcessor.BatchSpanProcessor.AwaitFlushed | sdk/trace/batch_span_processor.go:203-208 | The wait ends when the marker is closed or the done context is taken; otherwise the marker is still open and the context not done |
| SpanProcessor.BatchSpanProcessor.ExportInCall | sdk/trace/batch_span_processor.go:211-222 | The call's own export, under any interference: it returns the exporter's verdict on what was in the batch when the call took the mutex, nil if the batch was empty, or its context's error; it has not returned only while the mutex is held and its context is not done |
| SpanProcessor.BatchSpanProcessor.OnEnd | sdk/trace/batch_span_processor.go:153-159 | A span that is sent is the last accepted; a stopped processor refuses; with BlockOnQueueFull nothing is dropped, without it nothing waits |
| SpanProcessor.BatchSpanProcessor.ForceFlush | sdk/trace/batch_span_processor.go:198-224 | If the call returns nil, everything accepted before it belongs to ExportSpans calls that have returned, unless the processor was stopped by then or one of the call's own selects took its done context. A call that took the mutex and was not ended by its context returns nil if and only if the batch it found was empty or its exporter's verdict is success, and the exporter's error otherwise; it has not returned only while it is blocked on the full queue, its marker or the mutex |
| LogBatching.BatchProcessor.Enqueue | sdk/log/batch_processor.go:103-122 | Whatever worker, timer, Shutdown and other senders do between the stop check and the send, each event making exactly the next state: refused exactly if stopped at the check, panicking exactly if not and the queue is closed at the send; an accepted record is the last accepted; dropped or blocked, by the option, only by the full queue (also otelzap/writer.go:372-392) |
| LogBatching.BatchProcessor.Export | sdk/log/batch_processor.go:156-172 | Resets the timer; a non-empty batch goes to the exporter whole and the batch is empty afterwards (also otelzap/writer.go:418-438) |
| LogBatching.BatchProcessor.ProcessQueue | sdk/log/batch_processor.go:134-154 | For every schedule of senders, timer and Shutdown, event by event from the state the last one left: a fired timer exports the batch whatever its size, a record that fills it by count or size exports it at once, any other waits in it, only a stop ends the loop; conservation, order, batch bounds and the packet rule are kept and the timer receive never blocks (also otelzap/writer.go:394-416) |
| LogBatching.BatchProcessor.RunRound | sdk/log/batch_processor.go:134-154 | One round of the run loop does exactly what its case asks for, and after a stop leaves the batch below the limits, its size counted and the timer stopped |
| LogBatching.BatchProcessor.DrainOne | sdk/log/batch_processor.go:176-186 | A drained record goes to the end of the batch, which is exported exactly when it is due by count, for otelzap also by size |
| LogBatching.BatchProcessor.DrainQueue | sdk/log/batch_processor.go:174-191 | Ends for every schedule of late senders as the round-by-round specification says, with everything accepted exported in order and the queue closed; each late record has its fate, the accepted ones following in their order, the dropped ones counted, the others' senders panicking (also otelzap/writer.go:440-458) |
| LogBatching.PanicsIffAfterClose | sdk/log/batch_processor.go:174-191 | For every schedule the late senders whose turn comes before the close are accepted or dropped, and a late sender panics if and only if its turn comes after it; senders may come between the worker finding the queue empty and closing it |
| LogBatching.DrainPacketRuleIff | sdk/log/batch_processor.go:174-191 | Whatever processQueue leaves behind and however late senders come in, every batch ever exported obeys the packet rule if and only if the drain loop looks at sizes, as otelzap's does, or batches hold one record |
| LogBatching.DrainBreaksRule | sdk/log/batch_processor.go:174-191 | Without the size rule two late records, drained one by one, go out in one batch |
| LogBatching.DefaultsDiffer | sdk/log/batch_processor.go:30-36 | With the fixed options of sdk/log the rule can be broken, with otelzap's defaults it cannot |
| Reconnect.NoLostReconnect | exporter/asyncexporter/exporter.go:294-361 | For any number of export calls: while not stopped, a saved error implies a token in the channel, a call between saving and its send, or the loop in its connect step (also exporter/otlp/exporter.go:234-301) |
| Reconnect.DueRun | exporter/asyncexporter/exporter.go:294-361 | Over every run a due reconnect begins or is still due at no greater distance, unless the exporter is stopped |
| Reconnect.DueStep | exporter/asyncexporter/exporter.go:311-353 | No step of anybody takes a due reconnect further away; taking the token begins the attempt |
| Reconnect.NearerExists | exporter/asyncexporter/exporter.go:311-340 | In every reachable state with a due reconnect some step that needs nobody's help brings it nearer or begins it |
| Reconnect.ReconnectsSoon | exporter/asyncexporter/exporter.go:311-340 | At most three such steps begin it |
| Reconnect.ConnectsBounded | exporter/asyncexporter/exporter.go:347-353 | The loop never makes more connect attempts than errors were saved |
| Reconnect.QuietWhileDisconnected | exporter/asyncexporter/exporter.go:152-154 | Over any run without a saved connect outcome a disconnected exporter begins no export call |
| Reconnect.TokenStep | exporter/asyncexporter/exporter.go:343-361 | Every step keeps the no-lost-reconnect invariant |
| Reconnect.CountStep | exporter/asyncexporter/exporter.go:347-353 | Every step keeps saves equal to tries plus pending tries, and connects plus the token within the tries |
| Reconnect.InvRun | exporter/asyncexporter/exporter.go:294-361 | Every run keeps the invariant of the protocol |
| ReconnectLoop.Connection.Start | exporter/asyncexporter/exporter.go:194-219 | The first connect step, under any interference, ends with the loop at its select, the outcome saved, and a token there if it failed |
| ReconnectLoop.Connection.Connect | exporter/asyncexporter/exporter.go:363-416 | Connecting succeeds if and only if the dial did and the exporter is still started then |
| ReconnectLoop.Connection.ConnectStep | exporter/asyncexporter/exporter.go:325-329 | One connect step, under any interference: it fails only with the dial or with the exporter stopped, never succeeds without the dial; after a success no error is saved, after a failure one is and a token is there; its own steps are exactly these, in order |
| ReconnectLoop.Connection.RunRound | exporter/asyncexporter/exporter.go:311-340 | One round of the loop, given the case its select takes: a stop leaves the loop; a token begins exactly one connect attempt, which ends as the dial does unless the exporter was stopped meanwhile, and then the loop sleeps and is back at its select or leaves; a case that is not ready changes nothing |
| ReconnectLoop.Connection.SetStateDisconnected | exporter/asyncexporter/exporter.go:347-353 | Under any interference, afterwards the error is saved and a token is there |
| ReconnectLoop.Connection.IndefiniteBackgroundConnection | exporter/asyncexporter/exporter.go:294-341 | For any cases its selects take, every round, from where the others left the exporter, does what its case asks for; the loop leaves only when stopped, and back at its select with an error saved a token is there or about to be put |
| ReconnectLoop.Connection.ExportLogs | exporter/otlp/exporter.go:110-152 | Empty, disconnected, stopped and cancelled calls take no step and say which they are; any other goes to the collector and fails if and only if the collector does; its own steps in the run are then exactly the call and its end and, after a failure, saving the error and trying the channel, in this order (also exporter/asyncexporter/exporter.go:137-179) |
| AsyncBatches.WorkerSeesOneCall | exporter/asyncexporter/exporter.go:277-290 | What a worker is about to export is exactly what one ExportLogs call was given, however arrays are reused meanwhile, and was not exported before |
| AsyncBatches.OnePlacePerArray | exporter/asyncexporter/exporter.go:437-444 | No array is in two of pool, call, channel slot and worker |
| AsyncBatches.ExactlyOnePlace | exporter/asyncexporter/exporter.go:437-444 | Every array ever made is in exactly one of pool, call, channel slot and worker, or is garbage and in none, whatever calls overlap Shutdown |
| AsyncBatches.GarbageOnlyBy | exporter/asyncexporter/exporter.go:131-132 | An array becomes garbage exactly when the pool drops it, or the call that has it outgrows it or panics |
| AsyncBatches.HeldStep | exporter/asyncexporter/exporter.go:117-133 | Every step keeps each array that is not garbage where its owner says |
| AsyncBatches.ShutdownComplete | exporter/asyncexporter/exporter.go:251-254 | When all workers have left, every accepted batch was exported once with its own logs; success counts exactly the logs of the batches whose export succeeded, failed those of the others, and together they count every log, whatever calls overlapped Shutdown |
| AsyncBatches.PanicsIff | exporter/asyncexporter/exporter.go:117-135 | A call panics by a step if and only if that step is its send and the channel is closed |
| AsyncBatches.ClosedRun | exporter/asyncexporter/exporter.go:251 | Over every run from the close on nothing more is accepted, and a call under way that has not sent can only end in a panic |
| AsyncBatches.OverlapPanics | exporter/asyncexporter/exporter.go:117-135 | A reachable state in which a call that began before the close has panicked |
| AsyncBatches.OverlapAccepted | exporter/asyncexporter/exporter.go:133 | A reachable state in which a call that overlapped Shutdown but sent before the close was accepted |
| AsyncBatches.CallerPlaces | exporter/asyncexporter/exporter.go:131-133 | Getting a slice and filling it, in place or grown, touches no array of anybody else |
| AsyncBatches.SendPlaces | exporter/asyncexporter/exporter.go:133 | Sending hands the array and its content over to the channel slot |
| AsyncBatches.ReceivePlaces | exporter/asyncexporter/exporter.go:278 | Receiving hands the slot's array and content to that one worker |
| AsyncBatches.OthersPlaces | exporter/asyncexporter/exporter.go:281-288 | Exporting, putting back, leaving, closing and the pool dropping an array leave all other owners' arrays alone |
| AsyncBatches.TakenStep | exporter/asyncexporter/exporter.go:278-288 | Every step keeps each received batch with the worker that received it until that worker has exported it |
| AsyncBatches.SumStep | exporter/asyncexporter/exporter.go:282-287 | Every step keeps success equal to the logs of the batches whose export succeeded and failed to those of the batches whose export failed |
| AsyncBatches.ChannelBounded | exporter/asyncexporter/exporter.go:203 | In every run the channel holds at most two batches per worker |
| AsyncBatches.InvRun | exporter/asyncexporter/exporter.go:117-290 | Every run keeps the ownership invariant |
| AsyncWorkers.Exporter.GetBatchSlice | exporter/asyncexporter/exporter.go:437-440 | The call gets an array taken out of the pool, or one that did not exist before and is empty |
| AsyncWorkers.Exporter.Append | exporter/asyncexporter/exporter.go:132 | Fills the call's array in place exactly if the logs fit, leaving the cells behind them alone, else an array that did not exist before; the slice carries the call's logs |
| AsyncWorkers.Exporter.ExportLogs | exporter/asyncexporter/exporter.go:117-135 | Under any interference and at any time: sent, the call's logs are the last batch accepted; on the closed channel, and always if it was closed before, the call panics and nothing is accepted; otherwise it waits, filled, for room in the full channel |
| AsyncWorkers.Exporter.ExportBatch | exporter/asyncexporter/exporter.go:278-287 | What goes to the collector are the logs of the call that filled the slice; on success the one counter grows by their number, on failure the other, and the verdict is on record for that batch |
| AsyncWorkers.Exporter.RunRound | exporter/asyncexporter/exporter.go:277-290 | A round with a batch in the channel exports the one at its head, as its call gave it, records how that ended and puts its array back into the pool; on the closed, empty channel the worker leaves, on the open one it waits |
| AsyncWorkers.Exporter.ExportBatches | exporter/asyncexporter/exporter.go:277-290 | Under any interference every round of the loop does this, from where the others left the exporter, and the loop ends only on the closed, empty channel |
| CodeSort.SortIsClosedForm | config/codes/code_mapping.go:149-152 | Insertion sort under the comparator equals: both-named, then the two one-named kinds with the first-seen kind last, then neither, each in order |
| CodeSort.SortPermutes | config/codes/code_mapping.go:149-152 | The sorted list is a permutation |
| CodeSort.SortSorts | config/codes/code_mapping.go:147-152 | The sorted list names the most first |
| CodeSort.SortIdempotentIff | config/codes/code_mapping.go:147-152 | Sorting a sorted list changes nothing if and only if service-only and method-only entries are not mixed |
| CodeSort.ServicePrecedesIff | config/codes/code_mapping.go:147-148 | After one sort every service-only entry is before every method-only one, as the comment says, if and only if the kinds are not mixed or a method-only entry came first |
| CodeSort.SortPeriodTwo | config/codes/code_mapping.go:149-152 | A third sort undoes the second |
| CodeSort.SortTimesParity | config/codes/code_mapping.go:149-152 | After any number of sorts the list is that of one or of two sorts, by parity |
| CodeSort.SortKinds | config/codes/code_mapping.go:149-152 | Sorting keeps each kind's own order and turns the two one-named kinds around exactly when they are mixed |
| CodeSort.LessRank | config/codes/code_mapping.go:150-151 | The comparator never puts an entry before one that names more |
| CodeSort.SinkInto | config/codes/code_mapping.go:149-152 | The inner loop on the array inserts the entry into the sorted part before it |
| CodeSort.SortCodes | config/codes/code_mapping.go:149-152 | The in-place sort leaves the array as the insertion sort of what it held |
| CodeMapping.GroupIsForCode | config/codes/code_mapping.go:153-156 | The table holds, for each code, exactly the entries with that code in list order, and no other key |
| CodeMapping.FormatIntInjective | config/codes/code_mapping.go:164 | Different remote codes have different keys in the table |
| CodeMapping.NumeralIff | config/codes/code_mapping.go:164 | The key of a remote code is its one decimal numeral: digits without a leading zero that read back to the number, with a sign exactly if it is negative |
| CodeMapping.FirstRemote | config/codes/code_mapping.go:163-169 | In terms of the remote configuration alone: what is found among the remote codes is what the first code says whose number is the query's and that names its service, its method or neither, with the same service and method, the cut description, and an unknown kind read as success; nothing is found exactly if there is none |
| CodeMapping.RemoteAnswers | config/codes/code_mapping.go:69-77 | A query the local entries answer gets that answer; any other is answered by the first matching remote code, and by none exactly if none matches |
| CodeMapping.FirstMatchFinds | config/codes/code_mapping.go:79-91 | The lookup returns an entry that matches with none before it, and nothing exactly if nothing matches |
| CodeMapping.MatchCode | config/codes/code_mapping.go:79-91 | The loop returns the first matching entry |
| CodeMapping.MostSpecificLocalAnswer | config/codes/code_mapping.go:147-152 | If the lookup takes a local entry for the code, the answer is one it takes that names at least as much, so a global entry never hides a more specific one |
| CodeMapping.ResortKeepsAnswerIff | config/codes/code_mapping.go:159-173 | Re-sorting leaves the local answer to a query alone if and only if the query is not torn: no both-named match, but a service-only and a method-only one |
| CodeMapping.LocalAnswersStable | config/codes/code_mapping.go:159-173 | After any number of remote updates, whatever they carry, a query that is not torn gets the local answer it got from the start |
| CodeMapping.TornAnswerIff | config/codes/code_mapping.go:147-152 | A torn query is answered by a service-only entry after the first sort if and only if the first one-named entry of the list names the method, and by a method-only entry otherwise |
| CodeMapping.TornAnswersAlternate | config/codes/code_mapping.go:159-173 | A torn query is answered differently after each further update, whatever configurations the two carry |
| CodeMapping.TornExample | config/codes/code_mapping.go:147-152 | Two entries suffice to tear a query |
| CodeApplies.MatchesIff | config/codes/code_mapping.go:79-91 | The lookup takes an entry exactly if it applies (each name empty or the query's) or half matches (one name the query's, the other given and not), never both |
| CodeApplies.HalfMatchKinds | config/codes/code_mapping.go:81-88 | Which entries half match, for every kind of entry and every query, those without service or method included |
| CodeApplies.LookupRightIff | config/codes/code.go:41-44 | On any list and for any query the lookup answers as the entries' documentation asks, and its answer applies, if and only if every half match comes behind an entry that applies |
| CodeApplies.AnswerRightIff | config/codes/code_mapping.go:69-77 | The same for what is found among sorted local and remote entries of a code |
| CodeApplies.LocalAnswerAppliesIff | config/codes/code_mapping.go:144-173 | Under a query with both names and after any number of updates, a local answer applies unless, and only unless, the first local both-named entry taken half matches |
| CodeApplies.MostSpecificApplies | config/codes/code_mapping.go:147-152 | If no local entry of the code half matches, then after any number of updates the answer applies and names at least as much as any local entry that applies |
| CodeApplies.HalfMatchHides | config/codes/code.go:41-44 | An entry for one method of a service hides the service's own entry from all its other methods |
| CodeApplies.EmptyMethodHides | config/codes/code.go:41-44 | Under a query without method an entry for another service hides the global one |
| RemoteConfig.BuildTable | config/codes/code_mapping.go:153-156 | The loop builds the table of the list |
| RemoteConfig.AddRemote | config/codes/code_mapping.go:163-169 | The loop appends the remote codes behind the local ones of the same code |
| RemoteConfig.CodeConverter.constructor | config/codes/code_mapping.go:60-66 | The initial table is that of the sorted local entries |
| RemoteConfig.CodeConverter.CovertCodesToMapping | config/codes/code_mapping.go:144-157 | Sorts the array in place once more and builds its table |
| RemoteConfig.CodeConverter.ApplyConfig | config/codes/code_mapping.go:159-173 | The callback sorts the array once more, and the live table is that of its entries followed by the codes of that configuration, also when other converters share and sort the array |
| RemoteConfig.CodeConverter.Mapping | config/codes/code_mapping.go:69-77 | Answers a query from the local entries; if they have no answer, with what the first matching code of the latest applied configuration says, service, method, cut description and kind; and with the default exactly if there is none |
| RemoteConfig.RemoteConfigurator.Sync | sdk/remote/configurator.go:117-126 | Every registered converter runs on the new configuration and was applied to as often as it is registered; converters may share an array |
| RemoteConfig.ApplyAmong | config/codes/code_mapping.go:159-173 | Applying one converter leaves all others valid, those with the same array included |
| RemoteConfig.RemoteConfigurator.RegisterConfigApplyFunc | sdk/remote/configurator.go:130-140 | A newly registered converter runs on the last configuration at once, if there is one; the others stay on it |
| Cardinality.SortDescending | sdk/metric/limit_cardinality.go:181-184 | The in-place sort leaves a permutation in descending order of value |
| Cardinality.ListsPermuted | sdk/metric/limit_cardinality.go:172-184 | Reordering a listing of the vector's series still lists each once |
| Cardinality.CutKeepsLargest | sdk/metric/limit_cardinality.go:185-195 | Deleting all but the first k of the sorted series leaves exactly the k largest, all above one, at most the limit, every emitted value at least every deleted one, and drops a series above one only if the limit is used up |
| Cardinality.LimitCardinalityCollector.DeleteSmall | sdk/metric/limit_cardinality.go:185-195 | The loop deletes exactly the series that are not kept |
| Cardinality.LimitCardinalityCollector.Collect | sdk/metric/limit_cardinality.go:162-200 | At or under the limit everything is emitted and nothing deleted; above it the emitted series are the largest and the vector is left with exactly them |
| Cardinality.Truncate | sdk/metric/limit_cardinality.go:109-114 | A family over its limit keeps its first metrics, as many as the limit allows; any other is left as it is |
| Cardinality.TooLong | sdk/metric/limit_cardinality.go:136-141 | If the first n families fit and n+1 do not, no longer prefix fits |
| Cardinality.Gather | sdk/metric/limit_cardinality.go:99-147 | Returns the longest prefix of the truncated families within the total limit, hands them to the processor exactly when nothing was cut off, and resets each rpc group at most once, exactly if an oversized family of it was seen |
| Sampling.TraceIDUpperBound | sdk/trace/fraction.go:76-84 | The bound is the clamped fraction of 2^63 rounded down, 0 and 2^63 at the ends |
| Sampling.SampledShare | sdk/trace/dyeing_sampler.go:219-227 | Exactly twice the bound of the 2^64 leading eight-byte values are sampled, and an id is sampled exactly if its leading bytes are among them |
| Sampling.RaisingKeepsSampled | sdk/trace/dyeing_sampler.go:219-227 | Raising a fraction never drops a trace that was sampled |
| Sampling.FractionEnds | sdk/trace/fraction.go:76-84 | Nothing is sampled at zero or below, everything at one or above |
| Sampling.EncodeDecode | sdk/trace/dyeing_sampler.go:220 | Big-endian decoding is undone by encoding, for any number of bytes |
| Sampling.DecodeEncode | sdk/trace/dyeing_sampler.go:220 | Big-endian encoding is undone by decoding, for any number that fits |
| Sampling.FirstByteHighest | sdk/trace/dyeing_sampler.go:220 | The first byte is the most significant one |
| Sampling.MostSpecificFraction | sdk/trace/dyeing_sampler.go:229-250 | Giving a method its own fraction decides for it, whatever else is configured; the service's other methods without one get the service's default, and no other service is touched |
| Sampling.GlobalFraction | sdk/trace/dyeing_sampler.go:229-239 | A service that is not listed, and a sampler without a callee hook, get the global fraction |
| Sampling.MethodsSpecialFraction | sdk/trace/fraction.go:65-74 | The loop fills every method's bound from its fraction; the result is never nil |
| Sampling.SpecialFractions | sdk/trace/fraction.go:53-63 | The loop fills every service's default and method bounds; the result is never nil |
| Sampling.BuildConfig | sdk/trace/fraction.go:36-51 | For every callee, known or not, the bound looked up in the built config is that of the applicable fraction: the method's, else the service's default, else the global one |
| Sampling.DyeingMetadata | sdk/trace/dyeing_sampler.go:171-181 | The nested loops build a table in which a value is dyed under a key exactly if some entry with that key lists it, repeated keys included |
| Sampling.Sampler.constructor | sdk/trace/dyeing_sampler.go:109-135 | A new sampler decides by the fractions it was given; nothing is dyed yet |
| Sampling.Sampler.UpdateDyeingMetadata | sdk/trace/dyeing_sampler.go:151-186 | A successful answer replaces the dyed values; a failed call changes nothing |
| Sampling.Sampler.ShouldSample | sdk/trace/dyeing_sampler.go:189-227 | A sampled parent decides; else, with a service address, a forced or dyed attribute does, marking the trace state; else the applicable fraction, else the default decision |
| LabelHash.HashAdd | oteltrpc/metrics/prometheus/fnv.go:44-50 | The loop is FNV-1a over the string's bytes, from any state |
| LabelHash.HashAddByte | oteltrpc/metrics/prometheus/fnv.go:53-57 | One byte more |
| LabelHash.KnownValue | oteltrpc/metrics/prometheus/fnv.go:33-41 | The published FNV-1a value of "a" comes out, which fixes offset, prime and the order of the two operations |
| LabelHash.LabelsHash | oteltrpc/metrics/prometheus/trpc_metric.go:319-327 | The loop hashes one stream: the name, then each label followed by the separator |
| LabelHash.StepInjective | oteltrpc/metrics/prometheus/fnv.go:53-57 | A step can be undone, in the state and in the byte: the prime is invertible modulo 2^64 |
| LabelHash.ContinuationInjective | oteltrpc/metrics/prometheus/fnv.go:44-50 | Hashing one continuation keeps different states different |
| LabelHash.SingleByteDetected | oteltrpc/metrics/prometheus/fnv.go:44-57 | Streams of one length that differ in one byte never collide |
| LabelHash.ReadTerminated | oteltrpc/metrics/prometheus/trpc_metric.go:322-325 | A reader recovers the labels from the stream when none holds the separator |
| LabelHash.LabelsDetermined | oteltrpc/metrics/prometheus/trpc_metric.go:319-327 | Under one name the stream determines the labels |
| LabelHash.StreamsAgreeIff | oteltrpc/metrics/prometheus/trpc_metric.go:319-327 | Across names two streams agree if and only if name and first label run together to the same bytes and the other labels agree |
| LabelHash.ValidLabelsSeparable | oteltrpc/metrics/prometheus/trpc_metric.go:324 | Valid UTF-8 labels never hold the separator |
| LabelHash.NamesCollide | oteltrpc/metrics/prometheus/trpc_metric.go:321-325 | Moving the start of the first label into the name never changes the hashed stream |
| MetricCache.ComposeMetricVec.Add | oteltrpc/metrics/prometheus/trpc_metric.go:179-225 | Over all reports so far, every vector is named after the first report with its hash and holds, series by series, the sum (counter) or last value (gauge) of all reports with that hash; a report panics exactly if its number of values is not the vector's number of labels |
| MetricCache.CounterAdds | oteltrpc/metrics/prometheus/trpc_metric.go:197 | A counter's series adds up over stretches of reports, and one report counts for its amount |
| MetricCache.GaugeKeepsLast | oteltrpc/metrics/prometheus/trpc_metric.go:224 | A gauge's series is its last report, whatever came before, and other series do not matter |
| MetricCache.SharedVecIff | oteltrpc/metrics/prometheus/trpc_metric.go:182-183 | Unless the hash collides by accident, two reports share a vector if and only if name and first label run together to the same bytes and the other labels agree |
| MetricCache.ComposeMetricVec.OwnNameIff | oteltrpc/metrics/prometheus/trpc_metric.go:185-191 | In any state of the cache a report is counted under its own `_name` string if and only if the first report with its hash has the same one; without an accidental collision, a report of the same metric name is counted under its own labels, and under its own `_name` if and only if the record is the same |
| MetricCache.CountedUnder | oteltrpc/metrics/prometheus/trpc_metric.go:185-191 | The same for any history and its vector |
| MetricCache.SameNameIff | oteltrpc/metrics/prometheus/trpc_metric.go:189 | Of two reports of one metric the `_name` is the same if and only if the record is |
| MetricCache.NamesMeet | oteltrpc/metrics/prometheus/trpc_metric.go:189 | Different metrics can have one `_name`: the underscore may belong to the record or to the metric |
| Retry.WaitsHonoured | exporter/retry/retry.go:101-121 | Every planned wait follows a retryable failure, is at least the throttle and the backoff, and ends within MaxElapsedTime of the reset |
| Retry.CallsBounded | exporter/retry/retry.go:89-122 | With a time limit the request is called at most once more than shortest backoffs fit into it, for every environment |
| Retry.NeverRetriedIff | exporter/retry/retry.go:87-104 | A request is never tried twice, in any environment, if and only if the time since the reset plus half the current interval already exceeds the limit: the reset happens once, at construction |
| Retry.VerdictExplained | exporter/retry/retry.go:90-121 | The result is that of the last call, and every call before it failed for a retryable reason and was waited out |
| Retry.IntervalCarriesOver | exporter/retry/retry.go:78-87 | The backoff interval only grows, across requests too, up to its maximum |
| Retry.IntervalStaysIff | exporter/retry/retry.go:97-101 | Below the maximum it stays as it was if and only if the request is not called or its first call does not fail retryably |
| Retry.BackoffRange | exporter/retry/retry.go:78-84 | A backoff, as the library computes it with factor 0.5, can be any length from half the interval, rounded down, to one and a half, rounded up, and no other |
| Retry.BackoffIsMaxIff | exporter/retry/retry.go:43-45 | At the maximum interval the backoff equals it exactly for one stretch of the random numbers |
| Retry.BackoffAlwaysMaxIff | exporter/retry/retry.go:43-45 | It always equals it, as documented, if and only if it is zero |
| Retry.WaitsIff | exporter/retry/retry.go:101-121 | An attempt is followed by a wait if and only if it failed retryably and the backoff and, if that is no shorter, the throttle each end within the time allowed |
| Retry.GrownTowardsMax | exporter/retry/retry.go:78-84 | The interval grows by half, rounded down, and is the maximum once that would reach it |
| Retry.ShortestReached | exporter/retry/retry.go:78-84 | The bound on backoffs is reached: half the smaller of initial and maximum interval |
| Retry.RequestFunc.NextBackOff | exporter/retry/retry.go:101-104 | None is given exactly if there is a limit and the backoff would end after it; a given one is no shorter than the shortest and lies around the interval, which never falls below its maximum |
| Retry.OnceHonours | exporter/retry/retry.go:101-121 | One attempt plans at most one wait, an honoured one, and a further attempt comes after the whole of it |
| Retry.RequestFunc.Request | exporter/retry/retry.go:89-122 | The loop does what the attempt-by-attempt specification says and leaves the interval to the next request; with retrying off it calls once, without a wait, and that call's own result is the result, retryable or not |
| Utf8.CutKeepsWholeCodePoints | oteltrpc/traces/trace.go:113 | Cutting valid UTF-8 anywhere, appending ASCII and dropping invalid bytes keeps exactly the whole code points before the cut and the appended text |
| Utf8.LongestUnique | oteltrpc/traces/trace.go:113 | That prefix is determined by the cut |
| Utf8.ToValidIsValid | config/codes/code.go:30 | The result is valid whatever comes in, and valid text is left alone |
| Utf8.WidthIff | config/codes/code.go:30 | A string begins with a code point if and only if it begins with the encoding of a Unicode scalar value (section 3 of RFC 3629) |
| Utf8.ValidIff | config/codes/code.go:30 | The valid byte strings are the encodings of sequences of scalar values, and no others |
| Utf8.OneByteDropped | config/codes/code.go:30 | A byte that begins no code point is dropped and nothing but it; the valid text before it stays |
| Utf8.NoFF | oteltrpc/metrics/prometheus/trpc_metric.go:324 | Valid text never holds the byte 0xFF |
| Truncation.FixPanicsIff | oteltrpc/traces/trace.go:111-116 | It panics if and only if the limit is below the suffix length and the string is over the limit |
| Truncation.FixKeepsLongestPrefix | oteltrpc/traces/trace.go:111-116 | An over-long valid string becomes its longest whole-code-point prefix leaving room for the suffix, then the suffix: valid and within the limit |
| Truncation.FixUnchangedIff | oteltrpc/traces/trace.go:103-116 | A string comes back as it is if and only if it is within the limit |
| Truncation.FixAlwaysValid | oteltrpc/traces/trace.go:111-116 | Any over-long string comes out valid and within the limit |
| Truncation.StringLimit.SetMaxStringLength | oteltrpc/traces/trace.go:96-101 | The limit never rises above the default; higher values are ignored |
| Truncation.CutToLongest | config/codes/code.go:25-31 | Cut text is valid, within the limit, and for valid input the longest whole-code-point prefix |
| Truncation.CutUnchangedIff | config/codes/code.go:25-31 | Text is left alone if and only if it is valid and within the limit |
| Truncation.DescriptionsAndMethodsCut | sdk/metric/utility.go:53-57 | Descriptions keep the longest whole-code-point prefix of 32 bytes, method names that are no paths of 64 |
| Truncation.CleanedMethodValid | sdk/metric/utility.go:33-58 | The cleaned method name is valid UTF-8 in every branch |
| Truncation.RegisteredPatternUsed | sdk/metric/utility.go:41-51 | A path outside /0x is looked up without its query: a registered pattern is the answer, and a path with none gets the one default text |
| Truncation.NamesKept | sdk/metric/utility.go:33-40 | No name becomes a dash, and a valid one that begins with /0x stays as it is, however long |
| Truncation.QueryIgnored | sdk/metric/utility.go:41-51 | The query part of a path decides nothing |

## Left out

- gRPC, TLS, etcd, the admin endpoints, Prometheus push and the generated protobuf code: I/O and foreign calls.
- Config structs, option setters, flow logs, level tables, the tRPC filters, `cleanServiceName`, metric name conversion
  to pinyin: one-branch facts or plumbing.
- Counters, gauges and debug output beside the modelled ones, and context timeouts of exports.
- A nil exporter, nil spans and Enqueue(nil); MaxQueueSize 0, which makes the queue unbuffered.
- Real time: timers fire, waits and calls end whenever they like. Retry counts time as it is handed in.
- Floating point: fractions and metric values are reals without NaN or infinity; scaling by 2^63 is exact.
- Durations and sizes are unbounded integers; only the hash wraps.
- SpanGuarantees.ForceFlushDelivers: speaks of calls whose marker was accepted; `SpanMiss.UndisturbedMissIff` says what a call can miss otherwise.
- SpanProcessor.BatchSpanProcessor.ProcessQueue: runs for any given sequence of cases its selects take, because the loop itself ends only by Shutdown; what it does with an export's error, handing it to the error handler, is not part of this model. Shutdown's own code is two actions of the state machine, not a method.
- SpanProcessor.BatchSpanProcessor.ForceFlush: waits are bounded by a given patience, after which the call is reported as not returned.
- LogBatching.BatchProcessor.ProcessQueue: takes one step per event; otelzap's unsynchronised Sync is not among the events, and its stop channel, which nothing in the repository closes, is taken to be closable.
- LogBatching.BatchProcessor.Export: the exporter is finished with the slice when it returns; otelzap reuses the array afterwards.
- AsyncBatches.ShutdownComplete: there is one Shutdown; a second one beside it would close the channel twice.
- AsyncWorkers.Exporter.ExportLogs: a full channel is reported as waiting instead of blocking; the array heap is a map, with ownership as ghost history, not Dafny arrays.
- ReconnectLoop.Connection.ExportLogs: the check of the error and the select on stop channel and context are one step.
- CodeSort.SortCodes: insertion sort, which sort.Slice uses up to twelve elements; longer lists under a comparator that is no order are not modelled.
- RemoteConfig.RemoteConfigurator.RegisterConfigApplyFunc: the fetch itself is not part of this model, and converters that share an array do not sort it at the same time.
- Cardinality.LimitCardinalityCollector.Collect: nobody changes the vector meanwhile, and emission is in an order the contract does not fix.
- Cardinality.Gather: the wrapped gatherer succeeded; a failure is passed on before anything else happens.
- Sampling.Sampler.ShouldSample: the callee hook's answer is an input.
- MetricCache.ComposeMetricVec.Add: load and store are one step; the path without dimensions, histograms, negative counter increments and label values that are not UTF-8 are left out.
- Retry.RequestFunc.Request: requests that use the shared backoff at the same time are not interleaved, and the attempts come as a finite script, so a request may still be trying at its end.
