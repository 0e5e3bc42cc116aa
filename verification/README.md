# TailPost in Dafny

TailPost tails a log, batches its lines and posts them to an HTTP server; a Kubernetes operator deploys the
agents.  This project models the parts of it where a mistake would lose, repeat or reorder a line, close a
channel twice, or leave a cluster half configured, and proves what they keep.

`dafny verify dfyconfig.toml` checks everything.

| file | what it holds |
|---|---|
| `Lines.dfy` | the reference meaning of "line" and "record" (non-empty complete line), with its inverse |
| `LogLineReader.dfy` | the container stream splitter over an arbitrary chunked reader, as a class |
| `Tail.dfy` | the file tailer as a protocol: reader goroutine against a file that grows, is replaced, truncated, removed |
| `TailProgress.dfy` | what the tailer's own steps can always still achieve |
| `Rotation.dfy` | truncation under the reader, replacement, absence: exactly when nothing is lost |
| `FileReader.dfy` | the fields and operations of `FileReader`, each shown to be a run of that protocol |
| `Sender.dfy` | batching: the abstract outbox, and `HTTPSender` on its reused backing array |
| `SenderProtocol.dfy` | `HTTPSender` with concurrent `Send` and `Stop` calls and its flush loop |
| `Pipeline.dfy` | reader, channel, consumer, sender, deliveries and the main goroutine, interleaved |
| `Stages.dfy` | how far the shutdown has come, as an invariant |
| `Delivery.dfy` | that lines get through: every record can be dispatched and delivered |
| `WorstCases.dfy` | runs that bring the pipeline to its limits |
| `StopProgress.dfy` | exactly when stopping the file reader can come to an end, and how long it can take |
| `Shutdown.dfy` | exactly when shutting down comes to an end |
| `Lifecycle.dfy` | starting and stopping the Windows and container readers, and exactly which calls are safe |
| `Resources.dfy` | the operator's objects, the rendered configuration and how it reads back |
| `Conditions.dfy` | the status condition list against a plain map |
| `ReconcileSpec.dfy` | a reconcile pass as a function of the agent's objects and the API failures it meets |
| `Reconciler.dfy` | the reconciler on the API server, refining that function; independence of two agents |
| `Auth.dfy` | base64, basic and custom-header authentication |

Concurrency is modelled by interleaving: a step is one locked section, one channel operation, one read of the
file or one close.  A protocol is a `State`, an `Enabled` predicate and an `Apply` function; `Reaches(s, steps, t)`
says that the interleaving `steps` leads from `s` to `t`, and every theorem quantifies over all of them.
Outside decisions (when a tick fires, how many bytes a read returns, which API call fails, in which order a Go
map is visited) are nondeterministic steps or parameters.

In `Tail.dfy` a file's content is a *generation* that only grows: replacing the file links the path to another
generation, truncating it starts a new one and takes an open handle along.  An *epoch* is a stretch read from one
open file without a gap; it begins when a file is opened, or when the open file is truncated under the reader,
which then goes on with the bytes in its buffer and the truncated file from its old read position.  What was
consumed in an epoch is always a prefix of what its open file had to give.

Six places where the code does less than one might expect, each with the exact condition:

- Rotation is recognised by size alone, although `docs/architecture.md` says that rotation and truncation are
  handled transparently: `Rotation.ReplacementReadInFull` says exactly when a replacement is read in full, and
  `Rotation.RotationMissedExample` is an interleaving in which its line is never emitted.
- A file truncated while the reader has it open is read on from the old position until the next reopen:
  `Rotation.TruncatedReadsOn` says what is sent meanwhile, `Rotation.TruncatedReadInFull` exactly when the
  truncated file is read in full all the same, and in `Rotation.CutLineExample` half a line is sent as a line.
- What is written between the reader's last look at a file and its replacement is lost, even when the
  replacement is recognised: `Rotation.RotationIff`, and `Pipeline.EndToEndIff` for the whole pipeline, say
  exactly when nothing is, and `Rotation.UnreadLineExample` loses a line for good.
- Bytes that a reader returns together with an error are dropped by `ReadLine`: `LogLineReaders.LostBytes`
  says exactly when that does no harm, `LogLineReaders.LostBytesExample` when it does.
- `FileReader.Stop` can wait for ever: the reader's channel send does not watch `stopCh`, and the consumer is
  cancelled first.  `StopProgress.StopCanReturnIff` says exactly when it can still return, the file being left
  alone and readable, and `StopProgress.StopCanHang` leads from every start, in either stop order, to a
  shutdown that no continuation can finish.
- `Start` and `Stop` of the Windows and container readers misuse a channel when they overlap or a reader is
  restarted: `Lifecycle.CarefulIff` says exactly which calls do.
- Only replicas, image and resources of a StatefulSet are compared: `ReconcileSpec.StatefulSetAppliedIff` says
  exactly when some series of passes brings it to the desired spec, and by `ReconcileSpec.PullPolicyNeverApplied`
  none applies a changed pull policy alone.

`docs/architecture.md` also promises retries in the sender; the code has none, and neither has the model.

## Model

| member | source | states |
|---|---|---|
| `Lines.SplitCharacterised` | pkg/reader/container_reader.go:171-202 | splitting is the one inverse of joining: pieces are the split of a text iff they are newline-free and join back to it |
| `Lines.SplitAppend` | pkg/reader/container_reader.go:184-201 | splitting can be resumed from the unterminated remainder, so where a stream is cut does not matter |
| `Lines.SameLines` | pkg/reader/container_reader.go:189-197 | two streams have the same lines iff they differ at most in the newline ending the last one |
| `Lines.ReplacedPrefix` | pkg/reader/file_reader.go:159-165 | given lines followed by the records of the rest of a file are the records of the whole file iff they are the records of the part before and no record is cut, or it is cut just before its newline and they contain it whole |
| `Lines.SkippedPrefix` | pkg/reader/file_reader.go:159-165 | skipping the first bytes of a file keeps its records iff those bytes hold no record and cut none |
| `LogLineReaders.LogLineReader.ReadLine` | pkg/reader/container_reader.go:171-202 | returns the first line of everything still pending and leaves the rest pending; end of file only when nothing is left; a failed read leaves what is pending unchanged |
| `LogLineReaders.LogLineReader.ReadAll` | pkg/reader/container_reader.go:171-202 | repeated calls, retrying after failed reads, end and return exactly the lines of the stream |
| `LogLineReaders.LogLineReader.ReadUntilError` | pkg/reader/container_reader.go:121-139 | the inner loop of tailContainer passes on a prefix of the lines, and all of them when no read fails |
| `LogLineReaders.SplitStream` | pkg/reader/container_reader.go:162-202 | chunk independence: for every way of delivering a stream the lines are those of the whole stream, an unterminated tail being the last |
| `LogLineReaders.NextLine` | pkg/reader/container_reader.go:176-197 | cutting off one line at a time enumerates the lines of the stream |
| `LogLineReaders.LostBytes` | pkg/reader/container_reader.go:185-188 | with failed reads that carry bytes, the lines are those of the whole stream iff no failure carries bytes or only the last newline is lost |
| `LogLineReaders.LostBytesExample` | pkg/reader/container_reader.go:185-188 | a failed read that carries bytes loses a line |
| `Tail.Reopened` | pkg/reader/file_reader.go:133-173 | reopening succeeds iff the path exists and no call fails, and then reads from the offset, which lies inside the file; the offset is kept, or 0 for a shorter file; a missing file, a failed open or stat changes nothing |
| `Tail.StepKeepsInv` | pkg/reader/file_reader.go:73-173 | every step, whatever the environment does, keeps: emitted lines plus the held one are the records of the consumed text, consumption stops after a newline, the text of every epoch is a prefix of what its open file had to give (also of a file truncated under the reader), and the reader goes on where that text ends |
| `Tail.TailsExactlyOnce` | pkg/reader/file_reader.go:37-130 | on a growing file, for all appends, ends of file, reopen failures and spells of absence: emitted plus held is exactly the records of [start size, offset); the offset is the start size or just past a newline and where reading resumes; nothing is missing once the end was seen |
| `Tail.RunOnEpoch` | pkg/reader/file_reader.go:121-122 | while a file just opened only grows or is away for a while, and one truncated under the reader is neither reopened nor truncated again, the epoch goes on, the offset never decreases and files only grow |
| `Tail.ReadsOn` | pkg/reader/file_reader.go:73-130 | what such a run adds to the output is exactly the records of what the open file had to give between the two offsets |
| `TailProgress.CatchesUp` | pkg/reader/file_reader.go:84-173 | progress: from every state about to reopen a file that is there, the reader's own steps can emit exactly its records after the offset, or all of them if it is shorter, and meet its end |
| `TailProgress.ComesToTheEnd` | pkg/reader/file_reader.go:73-130 | from wherever it is, a reader that has not ended can come to the end of the file by its own steps |
| `TailProgress.RemovedAndBack` | pkg/reader/file_reader.go:133-156 | a removed file leaves nothing open and the offset kept; when a file is back its records after that offset, or all if it is shorter, can be emitted |
| `Rotation.RotationLosesNothing` | pkg/reader/file_reader.go:132-173 | over any number of orderly rotations, and truncations under the reader before whose reopen no line is taken, the output is the records of each file given up, the first from the start size and the others from byte 0, then those of the current file |
| `Rotation.RotationIff` | pkg/reader/file_reader.go:73-173 | over every run without exception, the output is the records of each file opened and given up, in full and in order, what was read from files truncated under the reader, and what was read from the current file, iff no file given up has a record after the offset at which it was given up |
| `Rotation.UnreadLineExample` | pkg/reader/file_reader.go:84-94 | a line written after the end of file was met and before a shorter replacement is never emitted, however the replacement is written later |
| `Rotation.ReplacementReadInFull` | pkg/reader/file_reader.go:159-165 | after a successful reopen, whatever came before it, and over every run in which the file only grows, the output is what it was followed by the file's records from byte 0 iff the file was shorter than the offset, or the bytes skipped hold no record and cut none |
| `Rotation.ReopenedReadsOn` | pkg/reader/file_reader.go:133-173 | what is added after a successful reopen is the records of the file from byte 0 if it was shorter than the offset, from the offset otherwise |
| `Rotation.TruncatedReadsOn` | pkg/reader/file_reader.go:108-130 | from a truncation under the reader until the file is reopened or truncated again, the records added are those of the buffer followed by the truncated file from the old read position |
| `Rotation.TruncatedReadInFull` | pkg/reader/file_reader.go:84-173 | a file truncated under the reader and then reopened is read in full from byte 0 iff what was sent in between stands in for the records before the place read from; for a file shorter than the offset by then, iff nothing was sent |
| `Rotation.CutLineExample` | pkg/reader/file_reader.go:116-129 | a truncated and rewritten file is read on in the middle of a line, whose end is sent as a line |
| `Rotation.RotationMissedExample` | pkg/reader/file_reader.go:159-165 | an interleaving in which a replacement of equal size is read to its end and its line never emitted |
| `Rotation.MissingFileChangesNothing` | pkg/reader/file_reader.go:84-156 | for as long as the file is missing, over every run, nothing is emitted and offset and epochs stay as they were, through any number of reopen attempts |
| `FileReaders.FileReader.Start` | pkg/reader/file_reader.go:37-59 | succeeds iff open and seek do, and then the reader is in a start state of the protocol, at the end of the file |
| `FileReaders.FileReader.ReadLine` | pkg/reader/file_reader.go:108-130 | with the file system changing before every read, the open file growing or being truncated: returns the first complete line of what is unread (of the open file as the last truncation left it, with all that was buffered), moves the offset past its newline and leaves the rest unread; without a complete line it fails and keeps the offset; the call is a run of protocol steps whose outside steps are the given changes |
| `FileReaders.FileReader.BufferLine` | pkg/reader/file_reader.go:116-119 | while the file may grow or be truncated between reads, buffered reading finds a newline iff one is unread by the time it ends, and loses and invents no bytes |
| `FileReaders.FileReader.TakeBuffered` | pkg/reader/file_reader.go:121-129 | the unread text is the returned line, its newline and what is unread afterwards |
| `FileReaders.FileReader.Reopen` | pkg/reader/file_reader.go:133-173 | is the protocol's reopen step; the file is open afterwards iff the path exists and no call fails, and what is unread is then the file from byte 0 if it is shorter than the old offset, from that offset otherwise |
| `Batching.BatchesPartition` | pkg/sender/http_sender.go:145-213 | for every interleaving of sends and flushes the dispatched batches followed by the current one are the accepted lines in order; batches have 1 to B lines, send-triggered ones exactly B, the current one fewer than B |
| `Batching.SendKeeps` | pkg/sender/http_sender.go:145-153 | a send adds its line at the end, keeps the sizes and only adds to what was dispatched |
| `Batching.FlushKeeps` | pkg/sender/http_sender.go:196-213 | a flush empties the batch, keeps the lines and their order, and dispatches everything accepted |
| `Batching.HTTPSender.constructor` | pkg/sender/http_sender.go:35-55 | a non-positive batch size becomes 1; the outbox starts empty |
| `Batching.HTTPSender.Send` | pkg/sender/http_sender.go:145-153 | does what the outbox specification says; no batch already handed out changes |
| `Batching.HTTPSender.Flush` | pkg/sender/http_sender.go:181-193 | does what the outbox specification says; no batch already handed out changes |
| `Batching.HTTPSender.FlushLocked` | pkg/sender/http_sender.go:196-213 | snapshot isolation: the batch is copied before the backing array is reused, so every copy keeps the lines it was dispatched with |
| `Batching.Replay` | pkg/sender/http_sender.go:145-213 | over any interleaving of sends and flushes on the array-based sender, the copies read at the end are the dispatched batches and, with the current batch, all accepted lines in order |
| `SenderProtocol.StepKeepsInv` | pkg/sender/http_sender.go:119-213 | every locked section and channel operation keeps the batch partition and the close protocol |
| `SenderProtocol.StopDrains` | pkg/sender/http_sender.go:124-193 | with any number of concurrent Stop and Send calls both channels are closed at most once, one call closes stopCh, and when it has returned every line accepted before the close is dispatched |
| `SenderProtocol.FlushDispatchesAll` | pkg/sender/http_sender.go:170-193 | right after the ticker's flush or the final one the batch is empty and the dispatched lines are all lines accepted |
| `SenderProtocol.FlushedForGood` | pkg/sender/http_sender.go:170-193 | in every run a line accepted before a flush is among the dispatched lines from that flush on |
| `SenderProtocol.StopDispatches` | pkg/sender/http_sender.go:124-143 | in every run what was accepted while stopCh was open is dispatched once the call that closed it has returned |
| `SenderProtocol.StopCanReturn` | pkg/sender/http_sender.go:124-193 | in every state every call of Stop can come to return by the sender's own steps, whatever other calls do |
| `Pipeline.StepKeepsInv` | cmd/agent/main.go:261-314 | every step of every goroutine and of the environment keeps the end-to-end invariant |
| `Pipeline.Conservation` | cmd/agent/main.go:265-281 | in every reachable state the records read are, in order, the dispatched batches, the current batch, the consumer's line, the channel and the reader's line; what is dispatched is a prefix |
| `Pipeline.EndToEnd` | cmd/agent.go:362-407 | on a growing file the records of [start size, offset) are the dispatched lines followed by the backlog, in every state of every run |
| `Pipeline.EndToEndAcrossRotations` | pkg/reader/file_reader.go:132-173 | the same over orderly rotations and truncations, with the records of every file given up |
| `Pipeline.EndToEndIff` | cmd/agent/main.go:265-281 | over every run, the dispatched lines followed by the backlog are the records of every file given up, in full, and what was read from the current one iff no file given up has a record left |
| `Pipeline.BacklogBound` | pkg/reader/file_reader.go:29-98 | lines read but not dispatched never exceed 1000 + (B - 1) + 2, and 1000 + (B - 1) once reader and consumer have finished |
| `WorstCases.BacklogAttained` | pkg/reader/file_reader.go:29-98 | for every batch size some run attains 1000 + (B - 1) + 2 |
| `WorstCases.FinishedBacklogAttained` | cmd/agent.go:413-452 | for every batch size and either stop order some run attains 1000 + (B - 1) with reader and consumer finished |
| `Pipeline.ShutdownGuarantee` | cmd/agent/main.go:286-314 | under either stop order, when main is done the reader and the flush loop are gone, every line accepted before the sender was told to stop is dispatched, and what is lost is exactly the backlog (that main can be done, and when: `ShutdownProgress.ShutdownCompletesIff`) |
| `Pipeline.MainKeepsShutdown` | cmd/agent.go:413-452 | main's moves establish, stage by stage and for both orders, which component is gone |
| `Stages.ReachableIsStaged` | cmd/agent.go:413-452 | in every reachable state the context, the reader's stop flag and the call of Stop on the sender are exactly what main's stage says |
| `ShutdownProgress.ShutdownCompletesIff` | cmd/agent/main.go:286-314 | in every reachable state after the signal and for both stop orders, some run without failing reads and without changes to the file brings main to its end iff the reader is not doomed |
| `ShutdownProgress.ShutdownHappens` | cmd/agent/main.go:286-314 | from every start, in either order, some run is shut down completely |
| `ShutdownProgress.LastStage` | cmd/agent.go:440-452 | in its last stage main can stop at once in the sender-first order, whatever the consumer does, and in the reader-first order exactly when the consumer has finished |
| `Delivery.ShutdownDispatches` | cmd/agent.go:413-452 | in every run that is shut down completely, what was handed over while the sender's stopCh was open has been dispatched |
| `Pipeline.DeliveredAtMostOnce` | pkg/sender/http_sender.go:207-212 | the server never receives a record more often than it was read |
| `Pipeline.DeliveriesAddUp` | pkg/sender/http_sender.go:207-212 | the lines received by the server, those of dropped batches and those of batches on their way are together exactly the dispatched lines |
| `Pipeline.FailedBatchIsLost` | pkg/sender/http_sender.go:207-212 | a batch that could not be delivered stays dropped in every continuation and is never attempted again |
| `Delivery.FlushedForGood` | cmd/agent/main.go:265-281 | in every pipeline run the lines handed over before a flush of the sender are among the dispatched lines from then on |
| `Delivery.EverythingGetsThrough` | cmd/agent/main.go:265-281 | in every state of every run on a growing file that is there, before the shutdown, the agent's own steps can dispatch exactly the records written since the start, with no backlog left |
| `Delivery.EverythingArrives` | pkg/sender/http_sender.go:196-213 | and if no delivery has failed, the server can receive each of them exactly as often as it is in the file |
| `Pipeline.TailRun` | cmd/agent/main.go:265-281 | every pipeline run projects to a run of the tailing protocol |
| `StopProgress.StopCanReturnIff` | pkg/reader/file_reader.go:67-105 | in every reachable state after the reader was told to stop, some continuation without failing reads and without changes to the file ends its goroutine iff there is room or a consumer, or the reader neither holds a line nor is in a readLine whose unread text starts with a non-empty complete line |
| `StopProgress.DoomedForever` | pkg/reader/file_reader.go:97-98 | once a line is held or next to be read, with the channel full and the consumer gone, no such continuation ends the reader |
| `StopProgress.HoldingForever` | pkg/reader/file_reader.go:97-98 | once the line is in the reader's hands no continuation at all, failures and file changes included, ends it |
| `StopProgress.CanFinish` | pkg/reader/file_reader.go:84-105 | in every other state a continuation that ends the reader is constructed from its own steps and the consumer's: it reads on to the newline or to the end of the file |
| `StopProgress.StopCanHang` | cmd/agent.go:413-452 | from every start and in either stop order some run has main wait for a reader that no continuation ends |
| `StopProgress.StopSettles` | pkg/reader/file_reader.go:67-105 | after the reader was told to stop and while the file is left alone, reader and consumer make a bounded number of moves under every schedule; until the reader is done a next move exists iff it does not hold a line for a full channel whose consumer has gone |
| `StopProgress.MovesBounded` | pkg/reader/file_reader.go:84-105 | the bound: the bytes left in the open file, twice the lines in the channel and a constant |
| `Lifecycle.ChannelsAreSafe` | pkg/reader/windows_event_reader.go:63-198 | when nothing is started once the reader is closed and Stop calls overlap only then (closed: stopCh closed and the flag cleared), no channel is closed twice and nothing is sent on a closed one, in any run |
| `Lifecycle.StepKeepsInv` | pkg/reader/container_reader.go:59-154 | the same for the container reader step by step, also when its goroutine ends by itself |
| `Lifecycle.CarefulIff` | pkg/reader/container_reader.go:59-92 | the discipline is exact: from every state of the invariant, callers who are careful afterwards can still meet a misused channel iff the step itself breaks it |
| `Lifecycle.RestartIff` | pkg/reader/windows_event_reader.go:63-77 | with stopCh closed, Start leads to a misused channel iff the running flag is cleared |
| `Lifecycle.OverlapIff` | pkg/reader/windows_event_reader.go:185-198 | a Stop that overlaps another leads to a misused channel iff stopCh is still open or the running flag still set |
| `Lifecycle.DisciplinedIsCareful` | pkg/reader/container_reader.go:59-92 | callers who never overlap Stop calls and start nothing once stopCh is closed are careful throughout |
| `Lifecycle.StopCanReturn` | pkg/reader/windows_event_reader.go:185-198 | every call of Stop can come to return by itself; one that found the reader running leaves it fully stopped: goroutine gone, flag cleared and, for the Windows reader, lines closed |
| `Lifecycle.LineDealtWith` | pkg/reader/windows_event_reader.go:100-124 | a goroutine with a line goes back to its loop whether it sends the line or, the channel being full, skips it |
| `Lifecycle.OverlappingStops` | pkg/reader/container_reader.go:78-92 | overlapping Stop calls close stopCh twice, for both readers |
| `Lifecycle.RestartedWindowsReader` | pkg/reader/windows_event_reader.go:63-77 | a restarted Windows reader sends on the closed lines channel |
| `Lifecycle.RestartedContainerReader` | pkg/reader/container_reader.go:59-70 | a restarted container reader closes stoppedCh twice |
| `Lifecycle.EndedContainerReader` | pkg/reader/container_reader.go:143-148 | a container reader whose goroutine ended by itself because its pod was gone still counts as running and cannot be started again |
| `Resources.DerivedNamesInjective` | pkg/k8s/resources/resources.go:37-49 | different agents get different objects of each kind |
| `Resources.Yaml` | pkg/k8s/resources/resources.go:264-286 | the text is the entries of the map, one per key, in some order |
| `Resources.RenderRoundTrip` | pkg/k8s/resources/resources.go:264-286 | for every order there is one entry per key, and cutting lines at the first ": " recovers the map iff no value contains a newline |
| `Resources.ConfigRoundTrip` | pkg/k8s/resources/resources.go:52-84 | the agent configuration reads back iff URL, interval and path have one line |
| `Resources.ConfigReadsBack` | pkg/k8s/resources/resources.go:52-84 | an agent reading the rendered text finds the spec's server URL, flush interval, batch size (digit by digit) and first file path under their keys and nothing else, iff those have one line |
| `Resources.DecimalDenotes` | pkg/k8s/resources/resources.go:272-273 | decimal notation denotes the number, read digit by digit with its sign |
| `Resources.RenderedLinesAre` | pkg/k8s/resources/resources.go:283-283 | the rendered lines are `key: value`, written out for a spec without a file |
| `Resources.SameEntries` | pkg/k8s/resources/resources.go:267-284 | two iteration orders render the same entries |
| `Resources.FirstFilePath` | pkg/k8s/resources/resources.go:61-66 | the path of the first file source with a non-empty path, if there is one |
| `Resources.ConfigData` | pkg/k8s/resources/resources.go:53-66 | the keys are exactly server_url, batch_size, flush_interval and, iff some file source has a path, log_path; each has the value of its own spec field, log_path that of the first such path; keys are clean |
| `Resources.CreateConfigMap` | pkg/k8s/resources/resources.go:52-84 | the loop over the sources renders exactly that configuration, in the order visited, under the derived name |
| `Resources.AmountList` | pkg/k8s/resources/resources.go:136-154 | the resource list names exactly the amounts given and is absent when none is |
| `Resources.ObjectsFit` | pkg/k8s/resources/resources.go:86-240 | the pods mount the agent's ConfigMap and are told the file in it, the Service selects the pods of the StatefulSet, image, pull policy, account and replicas are the spec's; names, labels and port are written out |
| `Resources.SelectorsTellApart` | pkg/k8s/resources/resources.go:28-34 | within a namespace a Service selects the pods of an agent iff it is its own |
| `Conditions.Find` | pkg/k8s/operator/controller.go:398-405 | the first condition of a type, or none |
| `Conditions.ListRefinesMap` | pkg/k8s/operator/controller.go:344-395 | from distinct types every run of set and remove keeps them distinct and acts as on a map from type to condition |
| `Conditions.SetRefines` | pkg/k8s/operator/controller.go:344-367 | setting acts on the one condition of its type, and only if the status changes |
| `Conditions.RemoveRefines` | pkg/k8s/operator/controller.go:376-388 | removing the first match removes the type |
| `Conditions.TransitionMarksStatusChange` | pkg/k8s/operator/controller.go:356-363 | a transition time changes only with the status, and then to the time of the change |
| `Conditions.RemovesAllIffUnique` | pkg/k8s/operator/controller.go:378-388 | removing the first match removes the type iff it occurs at most once |
| `ReconcileSpec.SetDefaults` | pkg/k8s/operator/controller.go:152-195 | the instance gets the effective spec (field by field: what is given is kept, what is missing becomes the reconciler's image, IfNotPresent, 1, 10 or 5s, all else is unchanged); the update succeeds iff it is needless or its call does not fail; the store gets that spec iff it was needed and succeeded, and is otherwise untouched |
| `ReconcileSpec.EffectiveSpec` | pkg/k8s/operator/controller.go:153-185 | field by field: a given image, pull policy, replica count, batch size or interval is kept, a missing one becomes the reconciler's image, IfNotPresent, 1, 10 or 5s, and every other field is unchanged |
| `ReconcileSpec.SetDefaultsStores` | pkg/k8s/operator/controller.go:152-195 | on a freshly read agent, success leaves instance and store with the same, defaulted spec and the children untouched |
| `ReconcileSpec.DefaultsSettle` | pkg/k8s/operator/controller.go:152-195 | defaults are filled in once: the result needs none again, under any environment, iff there was an image or a default for it |
| `ReconcileSpec.EmptyImageNeverSettles` | pkg/k8s/operator/controller.go:156-159 | with neither, every pass writes the agent again and leaves the image empty |
| `ReconcileSpec.ReconcileConfigMap` | pkg/k8s/operator/controller.go:198-234 | touches only the ConfigMap: success leaves the configuration of the instance's spec, rendered in the order visited; failure leaves everything |
| `ReconcileSpec.ReconcileStatefulSet` | pkg/k8s/operator/controller.go:237-273 | touches only the StatefulSet: success leaves replicas, image and resources as in the spec, failure leaves everything |
| `ReconcileSpec.ReconcileService` | pkg/k8s/operator/controller.go:276-310 | touches only the Service: success leaves selector and ports as desired, failure leaves everything |
| `ReconcileSpec.UpdateStatus` | pkg/k8s/operator/controller.go:313-341 | writes nothing but the agent's status: success stores the in-memory status with the ready replicas of the StatefulSet (0 without one) and the time; it succeeds iff neither call fails, and failure leaves the store untouched |
| `ReconcileSpec.StagesInOrder` | pkg/k8s/operator/controller.go:94-149 | under any pattern of API failures: a pass failing at a child leaves earlier children agreeing with the stored spec (the ConfigMap holding a rendering of its configuration) and that child and later ones untouched; a pass past the children leaves all agreeing |
| `ReconcileSpec.FailureFreePass` | pkg/k8s/operator/controller.go:94-149 | without failures a pass goes through |
| `ReconcileSpec.SuccessfulPass` | pkg/k8s/operator/controller.go:94-310 | a successful pass creates exactly the missing children, as derived from the spec, updates exactly the disagreeing ones in the managed fields, writes the agent iff defaults were missing, in that order, and after that writes only the status |
| `ReconcileSpec.Converges` | pkg/k8s/operator/controller.go:94-149 | after any series of passes that failed anywhere, one without failures, in any rendering order, leaves every child agreeing with the stored spec, and the ConfigMap reading back to its values when they have one line; with one default image that spec is the one before the series with the defaults filled in, whatever the passes met |
| `ReconcileSpec.AgreeingConfigReads` | pkg/k8s/resources/resources.go:52-84 | a ConfigMap that agrees with a spec reads back to the spec's own values iff they have one line |
| `ReconcileSpec.SeriesKeepsSpec` | pkg/k8s/operator/controller.go:152-195 | over any series of passes name and log sources stay, and with one default image the defaulted spec stays the same |
| `ReconcileSpec.QuietPass` | pkg/k8s/resources/resources.go:246-261 | over children that agree, a failure-free pass writes only the status, and the ConfigMap iff its text differs |
| `ReconcileSpec.Quiescence` | pkg/k8s/operator/controller.go:152-310 | after a successful pass, a further failure-free one creates nothing and updates neither agent spec nor StatefulSet nor Service; both render the configuration of the spec left behind, so the ConfigMap is rewritten iff the second order gives another text, which has the same entries and reads back alike when its values have one line |
| `ReconcileSpec.RewriteOnlyReorders` | pkg/k8s/resources/resources.go:264-286 | two renderings of one spec hold the same entries and read back to the same configuration when its values have one line |
| `ReconcileSpec.ConditionsAfterSuccess` | pkg/k8s/operator/controller.go:143-148 | a successful pass ends with Available at True, with its time, reason and message unless it was at True already, and no Degraded in memory; other types are as they were |
| `ReconcileSpec.StatusAfterSuccess` | pkg/k8s/operator/controller.go:313-341 | a successful pass reports the ready replicas of the StatefulSet and the time; without failures the stored status is the in-memory one |
| `ReconcileSpec.ConditionsAfterFailure` | pkg/k8s/operator/controller.go:116-135 | a pass failing at a child ends with Degraded at True, with the time, that child's reason and the failed call's error text unless it was at True already, in memory and, iff the status write succeeds, in the store; other types are as they were |
| `ReconcileSpec.StatefulSetAppliedIff` | pkg/k8s/operator/controller.go:237-273 | while the spec stays as it is, some series of passes brings the whole StatefulSet spec to the desired one iff it is missing, differs in a compared field, or is right already |
| `ReconcileSpec.SeriesOnStatefulSet` | pkg/k8s/operator/controller.go:237-273 | over any series of passes on a settled spec the StatefulSet stays as it is or, if it differed in a compared field, gets the desired spec |
| `ReconcileSpec.PullPolicyNeverApplied` | pkg/k8s/resources/resources.go:251-255 | after a change of the pull policy alone, any series of passes leaves the StatefulSet exactly as it was |
| `ReconcileSpec.ForeignFieldsKept` | pkg/k8s/operator/controller.go:224-307 | a pass changes only the data of an existing ConfigMap, the spec of a StatefulSet, and selector and ports of a Service |
| `Reconciler.PassesCommute` | pkg/k8s/operator/controller.go:94-149 | passes for different agents do not see each other, have the same outcomes in either order and lead to the same store |
| `Reconciler.SamePass` | pkg/k8s/operator/controller.go:198-341 | a pass depends on the store only through its own agent's objects |
| `Reconciler.TwoPasses` | pkg/k8s/operator/controller.go:94-149 | quiescence on the store: the spec left by a successful pass is the one the next pass works with, and that pass changes nothing but the status and the order of the ConfigMap's entries |
| `Reconciler.TailpostAgentReconciler.Reconcile` | pkg/k8s/operator/controller.go:94-149 | store, outcome, writes and number of calls are those of the specified pass, with the text rendered in some order of the configuration's keys; a missing agent or failed read changes nothing |
| `Reconciler.TailpostAgentReconciler.ReconcileTwice` | pkg/k8s/operator/controller.go:94-149 | two calls in a row: if the first succeeds, no call fails afterwards and there is an image or a default for it, the second succeeds, creates nothing, keeps spec, StatefulSet and Service, and rewrites the ConfigMap iff it visits the map in an order giving another text with the same entries |
| `Reconciler.TailpostAgentReconciler.ReconcileChildren` | pkg/k8s/operator/controller.go:116-148 | the stages after the defaults, in order, each failure marked Degraded; other agents' objects untouched |
| `Reconciler.TailpostAgentReconciler.SetDefaults` | pkg/k8s/operator/controller.go:152-195 | refines the specified stage; other agents' objects untouched |
| `Reconciler.TailpostAgentReconciler.FillDefaults` | pkg/k8s/operator/controller.go:153-185 | fills exactly the empty fields, with the reconciler's image, IfNotPresent, 1, 10 and 5s, keeps every other field, and reports whether there was one |
| `Reconciler.TailpostAgentReconciler.ReconcileConfigMap` | pkg/k8s/operator/controller.go:198-234 | refines the specified stage for some rendering order; other agents' objects untouched |
| `Reconciler.TailpostAgentReconciler.ReconcileStatefulSet` | pkg/k8s/operator/controller.go:237-273 | refines the specified stage; other agents' objects untouched |
| `Reconciler.TailpostAgentReconciler.ReconcileService` | pkg/k8s/operator/controller.go:276-310 | refines the specified stage; other agents' objects untouched |
| `Reconciler.TailpostAgentReconciler.UpdateStatus` | pkg/k8s/operator/controller.go:313-341 | refines the specified stage; the spec is kept |
| `Reconciler.TailpostAgentReconciler.SetCondition` | pkg/k8s/operator/controller.go:344-373 | refines the list operation and one status write |
| `Reconciler.TailpostAgentReconciler.RemoveCondition` | pkg/k8s/operator/controller.go:376-395 | refines the list operation, with a status write only if the type was present |
| `Reconciler.TailpostAgentReconciler.FindCondition` | pkg/k8s/operator/controller.go:398-405 | the index of the first condition of the type, or -1 |
| `Base64.RoundTrip` | pkg/security/auth.go:41-53 | decoding undoes encoding for every byte string (section 4 of RFC 4648) |
| `Base64.CapitalLetters` | pkg/security/auth.go:41-41 | letters 0 to 25 of the standard alphabet, written out (table 1 of RFC 4648) |
| `Base64.SmallLetters` | pkg/security/auth.go:41-41 | letters 26 to 51, written out |
| `Base64.DigitsAndSigns` | pkg/security/auth.go:41-41 | letters 52 to 63, written out |
| `Base64.GroupDenotes` | pkg/security/auth.go:41-41 | the four letters of a group denote, in base 64, its three bytes in base 256 (section 4 of RFC 4648) |
| `Base64.ShortGroupsDenote` | pkg/security/auth.go:41-41 | a short last group is filled up with zero bits and padded with one or two equals signs |
| `Base64.EncodesInGroups` | pkg/security/auth.go:41-41 | a longer string is encoded three bytes at a time |
| `Base64.DecodesIff` | pkg/security/auth.go:53-56 | exactly whole groups of letters with padding at most at the end are decoded, all else is an error |
| `Auth.BasicAcceptedIff` | pkg/security/auth.go:39-64 | credentials pass a check iff they spell the same as the expected ones and the expected user name has no colon; they are never malformed |
| `Auth.BasicDistinguishes` | pkg/security/auth.go:47-64 | among colon-free user names exactly the expected credentials are accepted |
| `Auth.BasicRoundTrip` | pkg/security/auth.go:39-64 | on any request, adding and checking basic credentials succeeds iff the user name has no colon (section 2 of RFC 7617) |
| `Auth.BasicAuthProvider.AddAuthentication` | pkg/security/auth.go:39-44 | sets the Authorization header, to Basic and the encoded user, colon and password, and no other |
| `Auth.CheckBasic` | pkg/security/auth.go:47-64 | accepts iff the header is "Basic " followed by an encoding of the expected user, a colon and the password, and that user has no colon; an error iff the rest does not decode |
| `Auth.HeaderAuthProvider.AddAuthentication` | pkg/security/auth.go:147-152 | in any order: every configured header is present with the value of some name of that canonical form; all others are still there, as they were |
| `Auth.HeaderAuthProvider.Authenticate` | pkg/security/auth.go:155-163 | accepts iff every configured name has its value |
| `Auth.HeaderRoundTrip` | pkg/security/auth.go:147-163 | on any request and whatever the two map orders, adding and checking succeeds iff no two names of the same canonical form carry different values |
| `Auth.CanonicalIff` | pkg/security/auth.go:147-163 | two proper header names denote the same header iff they differ at most in case; canonical form is idempotent; an improper name only denotes itself |

## Left out

- `sendBatchWithContext` (JSON, encryption, HTTP, spans): delivery of a batch is one step that delivers or drops it; the order in which batches are delivered is not claimed.
- TLS, payload encryption, the token and OAuth2 providers, telemetry, metrics, health endpoints, flags and configuration files: plumbing, or thin wrappers over libraries that are not part of this model.
- The macOS reader, event formatting and record numbers of the Windows reader: easy members beside the close protocol.
- Reconnecting a container stream, which asks for the last ten lines again: only the splitting of one stream and the start/stop protocol are modelled.
- Fair scheduling: `StopProgress` says which moves are left and how many, not that a goroutine with a move will make it.
- Time: ticks, sleeps and timeouts are steps that may happen at any moment.
- Integer widths: offsets, sizes and replica counts are unbounded.
- Rotation.RotationIff: what is read from a file truncated under the reader before it is reopened counts as read; `Rotation.TruncatedReadsOn` says what that is.
- Tail.Reopened: stat and seek are one step, so a change of the file between them is not modelled.
- FileReaders.FileReader.BufferLine: a read may return any positive number of bytes, not only up to the 4096 of the buffer.
- Batching.HTTPSender.constructor: the batch size of `NewSecureHTTPSender` is taken to be at least 1, so an append always fits the backing array and never reallocates it.
- Reconciler.TailpostAgentReconciler.Reconcile: setting the owner reference never fails, failed writes change nothing, nobody else writes during a pass, and every stored StatefulSet has a container, which the code indexes without looking.
- Resources.CreateConfigMap: the float and JSON branches of `yaml` cannot be reached from it and are not modelled.
- Resources.AmountList: amounts stay text; parsing them, and the panic on a malformed quantity, are not modelled.
- The constant parts of the StatefulSet (probes, ports, host volume, mounts, command).
- Events sent to the recorder, watches and requeue periods of the operator.
