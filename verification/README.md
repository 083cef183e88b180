# A verified model of the E2B Go SDK

This project models the parts of the SDK that keep state or transform data, and proves what they promise over all
inputs, all runs and all interleavings. `dafny verify dfyconfig.toml` checks everything.

* **The build protocol.** `StartBuild.dfy` is the client from hashing to the trigger; `BuildHashes.dfy` says which hashes
  it probes, names and stores under, and `SmallContexts.dfy` holds the small trees on which a promise fails;
  `TarPipe.dfy` is the producer goroutine, the pipe and the upload, as interleaved steps and as the code that takes
  them, and `TarErrors.dfy` says which error it reports; `Files.dfy` and `FilesHash.dfy` are the file list, the cache
  key and the archive; `BuildPoll.dfy` is the poll loop with its log offset, `BuildChannel.dfy` the event channel between
  it and `Build`.
* **The streaming handles.** `CommandStream.dfy` and `WatchStream.dfy` are state machines whose steps interleave the
  stream goroutine, readers, waiters and callers of Stop. `CommandHandle.dfy` and the class in `WatchStream.dfy` are
  the goroutines and methods as code; each of their actions is proved to be a step of the machine, with other
  goroutines running in between.
* **The template builder.** `Builder.dfy` is the mutable builder, `Paths.dfy` its path check, `Dockerfile.dfy` the
  parser; `DockerfileLaws.dfy` holds the printer and the laws that join printer and parser, `DockerfileLimits.dfy` the
  exact limits of the round trip, and `DockerfileLines.dfy` says line by line what is parsed and printed. `Quoting.dfy`
  reads quoted values back.
* **Listing.** `Pagination.dfy` is the paginator and `ListAll`, `QueryEncoding.dfy` the metadata filter.
* **Versions and numbers.** `Versions.dfy` orders envd versions, `Decimal.dfy` is the digit loop of `itoa`.
* `ByteStrings.dfy`, `Text.dfy`, `Strings.dfy` and `Sequences.dfy` hold the types and library functions these use;
  `ByteOrder.dfy` shows that sorting by characters and by bytes is the same.

## How the model is stated

What the code cannot see is a parameter: a server is a function of the request, a stream is a sequence of messages
and an end, the file tree is a value, and the choices of other goroutines are steps. A method that changes state is
proved equal to a function of the old state (`Next`, `After`), or to a step of a state machine; the laws are then
lemmas about those functions and machines, for every sequence of calls or steps. Go's maps are iterated in an
unspecified order, so methods that iterate one report the order they took, and laws hold for every order.

Status replies carry a JSON body in `BuildChannel`: the client dereferences nil without one (template/build.go:271).
`BuildPoll.PollUntilDone` models that crash as an outcome of its own.

## What does not hold in general

The model keeps the code as it is. Where a promise holds only under a condition, the condition is proved exact, or a
lemma gives the failing case.

* `itoa` of the smallest 64-bit integer gives "-": negation wraps and the loop is skipped. Every other number comes
  back (`Decimal.ItoaRoundTrip`).
* A build's log is followed without gap or repeat exactly while fewer than 2^31 entries were received, because the
  offset is sent as an int32 (`BuildPoll.ContinuesExactly`, `BuildPoll.WrappedOffsetRepeats`).
* The tree is read again for the trigger. Whatever the digest, the trigger names exactly the confirmed hashes if and only
  if both passes hash the same bytes for every COPY step (`BuildHashes.TriggeredHashesAreTheProbed`). An unchanged tree
  does (`BuildHashes.SameFieldsSameBytes`); a byte that changes in between makes the trigger name a hash never probed
  (`BuildHashes.ChangedTreeTriggersUnconfirmed`). Fields are hashed with nothing between them, so some changes leave the
  bytes as they were (`BuildHashes.SplitFileGoesUnnoticed`).
* Each upload reads the tree for itself. What is stored under a probed hash are the records of that reading
  (`BuildHashes.UploadedWhatItRead`), and a tree that changes for the time of the upload leaves other contents under the
  hash than the hashed ones (`BuildHashes.OtherTreeStoredUnderTheHash`).
* A COPY step that can be hashed can be archived exactly when it lists no socket and, when links are followed, no
  dangling link (`FilesHash.ArchiveOfHashed`, `SmallContexts.DanglingLinkHashesButDoesNotTar`). A file cut short at the
  very end of the archive lets the upload succeed with a clean end of file; only the error channel tells (`TarPipe.CleanEof`).
* A sticky builder error stops the trigger but is looked at only after all probes and uploads
  (`StartBuild.TriggerExactlyWhenReady`).
* `Stop` on a watch handle can still return nil without a further read if and only if the queue of 32 has room for the
  event that the consumer holds, if it holds one (`WatchStream.StopReturnsExactly`); after 33 unread events it waits
  forever (`WatchStream.StopMayWaitForever`).
* Parsing composes unless a line of the first text reaches the scanner's limit of 65536 bytes; then the rest is
  silently dropped (`DockerfileLaws.ParsingComposes`).
* Printing and parsing a builder restores it exactly under the conditions of `DockerfileLaws.Survives`; USER is not
  printed at all, EXPOSE and ENTRYPOINT are not parsed (`DockerfileLimits.RoundTripExactly`).
* A Dockerfile's FROM line sets the base image without clearing the base template
  (`TemplateBuilder.DockerfileFromKeepsTemplate`).
* Resuming a listing from `NextToken` after its end starts over (`Pagination.ResumeFromNextToken`).
* The comment on `compareEnvdVersions` (versions.go:70-74) says that a non-numeric or empty version sorts before any real
  one. A version is at or below every version if and only if all its segments are 0 (`Versions.LowestExactly`), and then
  it is strictly below exactly those with another segment (`Versions.ZeroBelow`). So "x.5" sorts after "0.1"
  (`Versions.MalformedAboveReal`), and an empty version equals "0.0" (`Versions.EmptyNotBelowZero`).

## Model

| member | source | states |
|---|---|---|
| `StartBuild.FinishStartBuild` | template/build.go:180-242 | the loop over the steps, with its messages to the server and its result, for every server, upload and tree |
| `StartBuild.ProbeSteps` | template/build.go:187-226 | the loop sends the messages of each step in order and ends at the first error |
| `StartBuild.ProbeAndUpload` | template/build.go:191-225 | one COPY step: the probe, the upload when it is needed, and which error it ends with |
| `StartBuild.TriggerExactlyWhenReady` | template/build.go:180-242 | the trigger is sent if and only if hashing, every probe and upload, the builder and the second hashing are all without error; it is the last message, after those of all steps in order |
| `StartBuild.TriggerMeansConfirmed` | template/build.go:187-232 | when the trigger is sent, each COPY step was reported present and not forced, or its upload was acknowledged, its producer returned nil and the server took the whole archive |
| `StartBuild.StopsAtTheFirstError` | template/build.go:192-225 | a failing step is the last one to send anything, and its error is the result |
| `StartBuild.ProbedAndSent` | template/build.go:187-216 | every COPY step is probed; if its link is not present or the instruction forces the upload, and there is a URL, its archive is sent there right after the probe |
| `StartBuild.PutFollowsItsProbe` | template/build.go:191-216 | every upload directly follows the probe of its own COPY step, whose link was not present or which forces the upload, and which got the URL |
| `StartBuild.UploadedExactlyWhenNeeded` | template/build.go:193-213 | in every triggered run, right after its probe each COPY step that forces the upload or is not present has sent what its producer delivered, and one that is present and not forced has sent nothing |
| `StartBuild.StepErrorExactly` | template/build.go:191-225 | a step's error: the probe's, the missing URL's, the upload's or the producer's, in this order, and none for a present step that is not forced |
| `StartBuild.CopyNeedsContext` | template/template.go:967-969 | a COPY step without a context ends the call before anything is sent |
| `StartBuild.ResultExactly` | template/build.go:227-241 | a builder's error comes after all uploads, a refused trigger fails, and a started build has sent the body it returns as its last message |
| `BuildHashes.ProbesFollowTheSteps` | template/build.go:187-194 | the probed hashes are those of the COPY steps, each once, in order |
| `BuildHashes.HashOnEachCopy` | template/template.go:978-997 | of the steps in a body exactly the COPY steps carry a hash |
| `BuildHashes.TriggeredHashesAreTheProbed` | template/template.go:1004-1058 | the hashes in the triggered body are the probed ones, in order, for every digest of the bytes, if and only if both passes hash the same bytes for every COPY step |
| `BuildHashes.SameFieldsSameBytes` | template/hash.go:36-86 | they do when both passes read the same names, attributes, link targets and contents |
| `BuildHashes.SplitFileGoesUnnoticed` | template/hash.go:36-86 | the converse fails: one file becomes two between the passes, every digest is the same, and the trigger still names the probed hash |
| `SmallContexts.DifferentFieldsSameBytes` | template/hash.go:41-99 | because fields are written with nothing between them: a file "a" whose contents end like the fields of a file "b" |
| `BuildHashes.NamesTheProbedExactly` | template/template.go:1004-1058 | with one digest, the hashes are the probed ones if and only if each COPY step hashes the same in both passes |
| `BuildHashes.ChangedTreeTriggersUnconfirmed` | template/template.go:1004-1011 | one byte of a file changes between the passes: the preimages differ, the trace ends with a trigger for the second digest, and only the first was probed |
| `BuildHashes.UploadedWhatItRead` | template/build.go:210-226 | an upload delivers exactly the records of the tree that it reads itself |
| `BuildHashes.UploadedWhatWasHashed` | template/build.go:210-226 | so one that reads the tree the hash was taken of delivers exactly the hashed records |
| `BuildHashes.OtherTreeStoredUnderTheHash` | template/build.go:210-226 | and one that reads another tree, between two passes that agree, stores other contents under the probed hash before the trigger names it |
| `StartBuild.HashInstructions` | template/template.go:956-999 | COPY without a context is an error; otherwise every COPY step gets its hash, in order, until the first error |
| `StartBuild.SerializeBuilder` | template/template.go:1004-1062 | the sticky error first, then the second hashing, then the body field by field |
| `StartBuild.BodyRestoresBuilder` | template/template.go:1013-1060 | the builder can be read back from the body: base, registry, commands and every structured instruction with its arguments and force flag, in order |
| `StartBuild.BodyOmitsEmpty` | template/template.go:1014-1058 | whatever is empty or unset is left out of the body, and raw entries have no step |
| `StartBuild.ReadDockerignore` | template/ignore.go:11-25 | the trimmed lines that are neither empty nor comments, in order; none without a file |
| `StartBuild.DockerignoreLine` | template/ignore.go:16-23 | one line is ignored when it is empty or a comment after trimming, and otherwise is one pattern, trimmed |
| `StartBuild.DockerignoreConcat` | template/ignore.go:16-23 | the patterns of two texts joined by a newline are those of the first and then those of the second |
| `StartBuild.IgnoresExactly` | template/template.go:971-977 | the caller's patterns come first, and the file's only with a context |
| `StartBuild.StepReads` | template/template.go:978-996 | the hash and the upload of a COPY step read its first argument, under the same patterns, and follow links exactly when the step's own option says so; its second argument is the destination that is hashed |
| `TarPipe.InvKept` | template/tar.go:16-59 | every step of producer, upload and main goroutine keeps the invariant of the piped upload |
| `TarPipe.NilMeansComplete` | template/tar.go:16-59 | nil from the error channel: every file was written in full and in order, and the reader took every byte of the archive |
| `TarPipe.ResultExactly` | template/tar.go:30-59 | the producer's result is nil if and only if the files could be listed, each gave the bytes its header promised and no pipe write failed |
| `TarErrors.ErrorNamesTheFault` | template/tar.go:30-58 | in every run the reported error is the closed pipe if a write of an entry was refused, else the listing's error, the first file at fault or a last file cut short, else a refusal of the closing writes; the reader is told of the first three only |
| `TarErrors.EntryBytes` | template/tar.go:61-108 | an entry is its header and the file's bytes up to the promised size; nothing follows a file that is short |
| `TarErrors.TrailerIsTwoZeroBlocks` | template/tar.go:31 | the archive ends with two blocks of 512 zero bytes |
| `TarPipe.CleanEof` | template/tar.go:30-43 | an open reader sees a clean end of file if and only if every entry could be added; the trailer is there if and only if the last file was complete |
| `TarPipe.ReceivesTheResult` | template/build.go:215-225 | the channel holds at most one error; the one receive gets the producer's result, after the reader was closed |
| `TarPipe.BoundedAfterClose` | template/build.go:216-223 | after the close no run, however scheduled, has more producer steps than a bound fixed by the files left |
| `TarPipe.DrainEnds` | template/build.go:219-223 | receiving from the error channel ends: the producer brings the result within a bounded number of its own steps |
| `TarPipe.PatientReader` | template/tar.go:16-59 | from every reachable state a reader that takes each write in full brings the producer to its end |
| `TarPipe.PatientUpload` | template/build.go:215-226 | for every listing there is an upload that reads to the end and returns what it saw there, acknowledged only after a clean end of file; its step succeeds if and only if every file was complete |
| `TarPipe.NoDeadlock` | template/build.go:215-225 | until the main goroutine has the result somebody can step |
| `TarPipe.OnlyAWriteBlocks` | template/tar.go:26-59 | while the reader is open the producer waits if and only if a pipe write is not yet taken |
| `TarPipe.TarUpload.WritePipe` | template/tar.go:26-28 | one blocking write: taken in full, or refused by a closed reader |
| `TarPipe.TarUpload.AddTarEntry` | template/tar.go:61-108 | one entry is added without error, or its error goes to finalize |
| `TarPipe.TarUpload.FinalizeWith` | template/tar.go:30-43 | the archive, the compressor and the pipe are closed in this order on every path, and the first error is returned |
| `TarPipe.TarUpload.WriteTar` | template/tar.go:26-59 | the loop over the files is a run of the state machine; nil if and only if nothing was short or refused |
| `TarPipe.TarUpload.Produce` | template/tar.go:19-22 | the goroutine ends with its result reported and the channel closed, whatever the reader does; nil means the reader took the whole archive |
| `Files.GetAllFilesInPath` | template/files.go:16-62 | the loops, the set and the sort give the file list, or an error |
| `Files.IsIgnored` | template/files.go:65-72 | true exactly when some pattern matches; a malformed pattern matches nothing |
| `Files.FileListExactly` | template/files.go:16-62 | the list is the strictly ascending, duplicate-free enumeration of the matches and descendants of matched directories that are not ignored |
| `Files.ListsExactly` | template/files.go:16-62 | spelled out from the context: the call fails exactly on the root, the glob, or the glob below a matched directory; and which entry lists which path |
| `Files.FileListIsTheOnly` | template/files.go:11-62 | and it is the only list of that kind |
| `Files.MatchOrderIrrelevant` | template/files.go:27-60 | the order and overlap of the glob results do not show in the list |
| `StringOrder.LeExactly` | template/files.go:60 | the order of the list is decided at the first different character, and a prefix comes first |
| `ByteOrder.LeIsByteOrder` | template/files.go:12-15 | that order by characters is Go's order by UTF-8 bytes, so that every SDK lists alike |
| `ByteStrings.Utf8Decodes` | template/hash.go:19 | decoding UTF-8 after section 3 of RFC 3629 gives every text back |
| `Paths.CleanSplits` | template/files.go:33 | a joined path has the kept segments and nothing else |
| `Paths.CleanIsIdempotent` | template/files.go:33 | cleaning a clean path changes nothing |
| `FilesHash.CalculateFilesHash` | template/hash.go:17-88 | the digest is taken of "COPY", source and destination, and then of one block for each listed file in order: its name, decimal mode and size, and a kept link's target or a regular file's contents; it fails exactly on an empty list or a file that cannot be read |
| `FilesHash.HashFiles` | template/hash.go:36-86 | the loop adds the block of each file to the running hash, and stops exactly at one that cannot be read |
| `FilesHash.EntryExactly` | template/tar.go:61-108 | the archive entry of a hashed file, spelled out: which files it is complete for, and a kept link's target or a regular file's contents |
| `FilesHash.BlocksOfHashed` | template/tar.go:61-108 | entry by entry: a hashed file goes into the archive under the same name, with the same attributes, target and contents |
| `FilesHash.ArchiveOfHashed` | template/tar.go:45-58 | over an unchanged tree the archive holds the hashed records in the hashed order, if and only if no listed file is a socket or a dangling link to be followed |
| `FilesHash.UploadCarriesTheHashed` | template/tar.go:16-59 | in every run of the upload, nil from the producer means that the server took exactly the hashed records |
| `SmallContexts.DanglingLinkHashesButDoesNotTar` | template/hash.go:49-69 | a step with a dangling link that is to be followed gets a hash, and its archive fails; kept as a link it can be archived |
| `BuildPoll.PollUntilDone` | template/build.go:246-302 | every log received is emitted once and in order, before the terminal event of its round; request i asks for the entries after those of the rounds before it; a reply without a body crashes the client |
| `BuildPoll.LoopEnds` | template/build.go:276-301 | how the events end: Done exactly for a Ready reply; for Error its reason, or an empty one, with the last 20 entries received; for a failed request its error; for a cancelled context Cancelled |
| `BuildPoll.GoesOnExactly` | template/build.go:259-299 | the loop goes on exactly while replies come, are neither Ready nor Error, and the context is not cancelled |
| `BuildPoll.ReceivedIsEveryEntry` | template/build.go:273-275 | what was received is every entry of every reply read, in order |
| `BuildPoll.AskedExactly` | template/buildapi.go:150-155 | a request carries no offset before the first entry, then the number of entries received, which turns negative at 2^31 |
| `BuildPoll.EmitLogs` | template/build.go:252-258 | the tail is always the last 20 entries |
| `BuildPoll.LogsExactlyOnce` | template/build.go:266-274 | against any append-only log, what is received in any number of polls is a prefix of it: no gap, no repeat |
| `BuildPoll.EmittedLogsArePrefix` | template/build.go:246-302 | so are the Log events that the loop emits |
| `BuildPoll.ContinuesExactly` | template/buildapi.go:150-155 | after n entries every honest answer continues the log if and only if n is below 2^31 |
| `BuildPoll.WrappedOffsetRepeats` | template/buildapi.go:152-155 | after 2^32 entries the offset wraps to 0 and the log is repeated |
| `BuildChannel.InvKept` | template/build.go:34-52 | every step of the poll goroutine and of Build keeps the channel's invariant |
| `BuildChannel.ChannelCarriesTheLoop` | template/build.go:246-302 | in every run the events taken, buffered and pending are those that the poll loop emits over the same replies |
| `BuildChannel.EventGrammar` | template/build.go:246-302 | a channel carries logs, then exactly one terminal event, and then closes |
| `BuildChannel.BuildOutcome` | template/build.go:34-52 | Build returns the info exactly on Done and the error exactly on Err; "closed without terminal event" cannot happen; when it returns, nothing is left to send |
| `BuildChannel.BuildSucceedsExactly` | template/build.go:34-52 | Build returns the info if and only if the last round was polled uncancelled and its status is Ready; for Error it returns the reason with the last 20 entries |
| `BuildChannel.SixteenBuffered` | template/build.go:34-52 | at most 16 events wait in the channel, and only then does a send wait |
| `BuildChannel.StepsBounded` | template/build.go:40-51 | once the poll loop has stopped, no run of the two sides, however scheduled, has more steps than what is left to send and take, and the return |
| `BuildChannel.BuildReturns` | template/build.go:40-51 | and there is such a run in which Build returns |
| `BuildChannel.NoDeadlock` | template/build.go:40-47 | while Build runs, one side can move, up to waiting for the next status reply |
| `CommandStream.InvKept` | command_handle.go:119-182 | every step of the stream goroutine, readers and waiters keeps the invariant |
| `CommandStream.NeverPanics` | command_handle.go:121-124 | in no run is a closed channel sent on or closed again |
| `CommandStream.WaitersAgree` | command_handle.go:72-93 | all Wait calls that observe `done` return the same outcome: the stream's error, or the last End with all output in the order received |
| `CommandStream.OutcomeExactly` | command_handle.go:72-93 | what every Wait returns: the stream's error; without one, no result if no End came; else the last End's status with all of stdout and stderr, failed unless the code is 0 |
| `CommandStream.PidIsTheLastStart` | command_handle.go:130-135 | in every run the process id is that of the last Start received, and 0 before any |
| `CommandStream.ChunksExactly` | command_handle.go:136-165 | each data event adds its chunk to its own source and no other event adds any |
| `CommandStream.FinalForever` | command_handle.go:121-180 | after `done` closes no run of steps, of anyone, changes what Wait returns |
| `CommandStream.LossyInOrder` | command_handle.go:146-164 | per channel, read plus queued chunks (at most 32) are an in-order part of those offered, and all of them if and only if no send found the queue full |
| `CommandStream.DroppedExactlyWhenFull` | command_handle.go:146-149 | a chunk is dropped exactly when 32 are queued |
| `CommandStream.CloseOrder` | command_handle.go:120-124 | the deferred closes: done first, then the terminal's channel, stderr's and stdout's |
| `CommandStream.ReachesTheStream` | command_handle.go:137-165 | from every reachable state the goroutine alone gets back to the stream, or to its end: it never waits for a reader |
| `CommandStream.GoroutineFinishes` | command_handle.go:119-182 | at most three steps per event and six for the end of the stream, its error and the four closes, whatever readers do |
| `CommandHandles.CommandHandle.StartStream` | command_handle.go:119-182 | the goroutine, with others running between its actions, is a run of the machine that consumes the whole stream and closes everything |
| `CommandHandles.CommandHandle.HandleEvent` | command_handle.go:126-172 | one turn of the receive loop |
| `CommandHandles.CommandHandle.TrySend` | command_handle.go:146-149 | the select with a default branch: queued if there is room, dropped if not |
| `CommandHandles.CommandHandle.Wait` | command_handle.go:72-93 | what Wait returns is determined by the received stream |
| `CommandHandles.CommandHandle.FinishedState` | command_handle.go:119-182 | at the end the process id and exit status are those of the last Start and End, the accumulators hold the whole output, the error is the stream's, and every channel is closed |
| `WatchStream.InvHolds` | watch_handle.go:36-71 | in every run of consumer, readers and callers of Stop the invariant holds |
| `WatchStream.LosslessInOrder` | watch_handle.go:48-65 | events read, queued (at most 32) and pending are exactly the mapped events of the received stream, in order |
| `WatchStream.MappedExactly` | watch_handle.go:53-64 | each filesystem message is one event with its name and kind, in its place; no other message shows |
| `WatchStream.StopMeansFinal` | watch_handle.go:29-44 | once Stop returned nil, everyone reads the stream's own error and no step changes it |
| `WatchStream.OnlyAFullQueueBlocks` | watch_handle.go:53-64 | the consumer waits on the stream, can move, is finished, or holds one event with 32 queued; there only a read helps |
| `WatchStream.StopReturnsExactly` | watch_handle.go:35-71 | in every state that the invariant allows, so in every reachable one: Stop can return nil without a further read if and only if the queue has room for the event the consumer holds, if any |
| `WatchStream.RoomLetsStopReturn` | watch_handle.go:48-71 | with that room, the consumer closes `done` within five steps, without a reader or more of the stream |
| `WatchStream.NoRoomBlocksStop` | watch_handle.go:36-71 | without it, no run of the others without a read lets Stop return nil |
| `WatchStream.StuckWithoutReader` | watch_handle.go:36-44 | a consumer blocked in its send stays there without a reader |
| `WatchStream.StopMayWaitForever` | watch_handle.go:35-44 | after 33 unread events Stop never returns nil, whatever else happens but a read |
| `WatchStream.FsEventTypes` | watch_handle.go:73-87 | which kind becomes which, and that every other kind is unspecified |
| `WatchStream.WatchHandle.Consume` | watch_handle.go:48-71 | the goroutine is a run of the machine: all events delivered or queued, the error stored, then `done`, then the channel closed |
| `WatchStream.WatchHandle.Stop` | watch_handle.go:36-44 | cancels, and reports success only after `done` |
| `TemplateBuilder.Builder.Copy` | template/template.go:314-341 | a rejected source records its error unless there is one already, and leaves the force flag alone; an accepted one appends source, destination, user and mode with the flag |
| `TemplateBuilder.Builder.CopyItems` | template/template.go:345-363 | the loop is the copies of its items in order |
| `TemplateBuilder.CopyItemsInOrder` | template/template.go:345-363 | items with accepted sources append one COPY each, in order and with their own options; a pending SkipCache forces the first one only |
| `TemplateBuilder.Builder.SetEnvs` | template/template.go:564-578 | one ENV with every key and value once, in the order of the iteration; nothing for an empty map |
| `TemplateBuilder.Builder.RunAs` | template/template.go:500-511 | appends RUN with the user if there is one, taking the force flag |
| `TemplateBuilder.Builder.AddMCPServer` | template/template.go:914-922 | only on the gateway template; otherwise an error and no append |
| `TemplateBuilder.PendingForce` | template/template.go:400-403 | the flag is pending exactly when SkipCache was called since the previous append |
| `TemplateBuilder.ForceMarksTheNextLayer` | template/template.go:491-498 | over any calls, an appended instruction is forced if and only if SkipCache was called since the previous append; calls that append nothing do not use it up |
| `TemplateBuilder.AppendingCall` | template/template.go:314-578 | for every call: what it appends, the flag afterwards and the error afterwards |
| `TemplateBuilder.InstructionsOnlyGrow` | template/template.go:314-578 | after any prefix of the calls the instructions are a prefix of the final ones |
| `TemplateBuilder.FirstErrorSticks` | template/template.go:315-320 | the stored error is that of the first failing call, never replaced or cleared |
| `TemplateBuilder.OneBaseKept` | template/template.go:95-214 | base image and base template are never both set, as long as no Dockerfile FROM is parsed |
| `TemplateBuilder.OneBaseStep` | template/dockerfile_parser.go:38-39 | one call sets both exactly when it is a parsed FROM with an image after a base template |
| `TemplateBuilder.DockerfileFromKeepsTemplate` | template/dockerfile_parser.go:38-39 | a parsed FROM after a base template leaves both set |
| `Paths.AcceptedIffNeverAbove` | template/template.go:299-308 | a relative path is accepted if and only if no prefix of its segments climbs above the start |
| `Paths.ValidatedExactly` | template/template.go:299-308 | an absolute source is rejected as not relative, and a relative one, exactly when some prefix climbs above the start, as escaping |
| `Paths.AcceptedIffInsideContext` | template/template.go:299-308 | if and only if walking it never leaves the context directory, whichever that is |
| `Paths.JoinedPathIsBelowContext` | template/template.go:299-308 | an accepted source joined to an absolute context lies below it |
| `Dockerfile.ParseDockerfile` | template/dockerfile_parser.go:29-62 | the loop makes the builder calls of the text's lines, in order |
| `Dockerfile.ParseEnvLine` | template/dockerfile_parser.go:75-85 | the map of the tokens with a key, later ones winning, outer quotes dropped |
| `DockerfileLines.LineMeans` | template/dockerfile_parser.go:32-73 | for every line: which calls its first word makes, in any letter case, with what follows one space or tab |
| `DockerfileLines.CommentIgnored` | template/dockerfile_parser.go:32-35 | an empty line and a comment make no call |
| `DockerfileLines.EnvTokensExactly` | template/dockerfile_parser.go:75-85 | a key is set exactly by the tokens that name it before an '=', and the last one decides |
| `DockerfileLines.FieldsExactly` | template/dockerfile_parser.go:43 | the fields of a text are its words, whatever the whitespace around and between them |
| `DockerfileLines.TrimSpaceExactly` | template/dockerfile_parser.go:32 | trimming takes the whitespace off both ends and nothing else |
| `DockerfileLines.TrimCharExactly` | template/dockerfile_parser.go:82 | cutting quotes takes all of them off both ends and nothing else |
| `DockerfileLines.TooLongExactly` | template/dockerfile_parser.go:30-31 | a line is too long for the scanner exactly from 65536 bytes of UTF-8 on |
| `DockerfilePrinter.ToDockerfile` | template/template.go:456-486 | the text of the base and of every instruction; nothing for a template base |
| `DockerfileLines.PrintsExactly` | template/template.go:456-486 | the printed text is the base line and one piece for each instruction, which is spelled out for every kind |
| `Quoting.UnquoteOfQuote` | template/template.go:475-476 | a quoted value always reads back, whatever had to be escaped |
| `DockerfilePrinter.BuiltInstructionsWellFormed` | template/template.go:314-578 | whatever calls built it, every instruction has the arguments the printer reads |
| `DockerfileLaws.ParsingComposes` | template/dockerfile_parser.go:29-62 | the calls of two joined texts are those of the first and then of the second, if and only if the first has no over-long line or the second makes no calls |
| `DockerfileLaws.ParsedBuildersCompose` | template/dockerfile_parser.go:29-62 | on builders: a run of the first text and then one of the second is a run of the joined text, for every iteration order of ENV maps |
| `DockerfileLaws.JoinedRunSplits` | template/dockerfile_parser.go:29-62 | and every run of the joined text is of that form |
| `DockerfileLaws.LongLineSwallowsTheRest` | template/dockerfile_parser.go:30-31 | a line at the scanner's limit drops everything after it |
| `DockerfileLaws.LineRebuilds` | template/dockerfile_parser.go:64-85 | a restorable instruction prints as one line, which parses back to its kind and arguments |
| `DockerfileLaws.RoundTrip` | template/template.go:456-486 | printing and parsing restores base image, kinds and arguments of every builder that meets the conditions |
| `DockerfileLimits.RoundTripExactly` | template/template.go:456-486 | and of no other builder: it is restored if and only if it meets them |
| `DockerfileLimits.ParsedIsParsable` | template/dockerfile_parser.go:29-62 | whatever the text, the parser makes only instructions of a fixed shape |
| `Strings.TrimOfQuote` | template/dockerfile_parser.go:82 | dropping the outer quotes undoes quoting if and only if nothing had to be escaped |
| `Pagination.SandboxPaginator.NextItems` | list.go:49-107 | one page and the next cursor, as the cursor function of the laws says; a failure leaves the cursor; nothing after the end |
| `Pagination.BuildRequest` | list.go:53-75 | a request carries the cursor, the states and the limit, each exactly when it is set |
| `Pagination.ListAll` | list.go:133-144 | exactly the pages of the server's chain from the starting cursor, in order, with the error that ends it; one call for each page |
| `Pagination.HeldPagesAreTheChain` | list.go:49-107 | against a server that holds given pages and looks at the token only, the chain from page i on is the pages from i on |
| `Pagination.ListHeldPages` | list.go:133-144 | so listing returns them all in order, and from the token of page i those from i on |
| `Pagination.RequestCarriesCursor` | list.go:60-72 | every request of a run carries its cursor and the caller's states and positive limit |
| `Pagination.ChainIsUnique` | list.go:49-107 | the server determines that chain |
| `Pagination.RetriesLoseNothing` | list.go:49-107 | however often calls fail and are retried, the caller has the pages in order without gap or repeat |
| `Pagination.ResumeFromNextToken` | list.go:40-44 | while HasNext holds, stopping and resuming from NextToken gives the whole listing; after the end it starts over |
| `Pagination.RequestCarriesMetadata` | list.go:53-75 | every page asks for the same metadata, and the server can read it back |
| `QueryEncoding.EncodeMetadataQuery` | list.go:175-185 | the loop, sort and join give the sorted escaped pairs |
| `QueryEncoding.DecodeOfEncode` | list.go:175-185 | splitting and unescaping gives back the map, for every map |
| `QueryEncoding.OrderIrrelevant` | list.go:175-185 | the text does not depend on the iteration order |
| `QueryEncoding.EmptyExactlyWithoutMetadata` | list.go:175-185 | the text is empty if and only if the map is |
| `QueryEncoding.UnescapeOfEscape` | list.go:180 | unescaping undoes escaping, for every byte string |
| `QueryEncoding.EscapeAlphabet` | list.go:180 | only the unreserved characters of section 2.3 of RFC 3986, "%" and "+" appear |
| `QueryEncoding.EscapedAs` | list.go:180 | unreserved bytes stay as they are, a space is "+", every other byte is "%" and two capital hexadecimal digits |
| `Versions.CompareEnvdVersions` | versions.go:75-95 | the loop over both segment lists with zero padding |
| `Versions.SplitVersion` | versions.go:101-130 | the loops that cut the suffix and collect the segments |
| `Versions.CompareMeaning` | versions.go:75-95 | the result is the sign of the zero-padded lexicographic order |
| `Versions.PreorderLaws` | versions.go:75-95 | reflexive, antisymmetric in sign and transitive on all strings |
| `Versions.SegmentsNonNegative` | versions.go:101-130 | no parsed segment is negative |
| `Versions.HugeSegmentIsZero` | versions.go:117-127 | a segment beyond the 64-bit range counts as 0 |
| `Versions.LowestExactly` | versions.go:70-74 | a version is at or below every version if and only if all its segments are 0 |
| `Versions.ZeroBelow` | versions.go:70-74 | such a version is strictly below exactly the versions with another segment |
| `Versions.UnparsedIsLowest` | versions.go:72-74 | so an empty version, or one with no segment that parses, is at or below every version |
| `Versions.MalformedAboveReal` | versions.go:72-74 | a malformed version above a real one: "x.5" and "0.1" |
| `Versions.EmptyNotBelowZero` | versions.go:72-74 | an empty version equals "0.0" |
| `Versions.SuffixIgnored` | versions.go:105-109 | a "-" or "+" suffix never matters |
| `Versions.TrailingZeroIgnored` | versions.go:79-92 | a trailing zero segment never matters |
| `Versions.ParseOfRender` | versions.go:101-130 | parsing undoes dotted rendering with an optional "v" and any suffix |
| `Versions.GateMonotone` | versions.go:60-68 | a newer build passes every gate that an older one passes |
| `Versions.ResolveEnvdUser` | versions.go:60-68 | the requested user, or else the default user exactly below the gate |
| `Versions.ResolvedUserMonotone` | versions.go:60-68 | once a build lets envd infer the user, newer ones do too; a named user always wins |
| `Versions.DebugPassesEveryGate` | versions.go:48-54 | in debug mode every gate is open |
| `Versions.GatesSeeTheVersion` | versions.go:48-54 | outside debug mode the gates see the sandbox's own version |
| `Decimal.Itoa` | config.go:171-191 | the digit loop: no index leaves the 20-byte buffer, and the text is the canonical decimal |
| `Decimal.ItoaRoundTrip` | config.go:171-191 | the text parses back, and is canonical, if and only if the number is above the minimum |
| `Decimal.RenderIsUnique` | config.go:171-191 | the rendering is the only canonical text of its number |

## Left out

- Generated code, HTTP, RPC, TLS, clocks, timeouts and cancellation of single requests: a call is one reply.
- The template request before `finishStartBuild` (defaults of CPU and memory, tags) and the BuildInfo it returns: field
  copies.
- `snapshots.go`: the paginator of `list.go` once more. `sandbox.go` `int64ToStr`: the loop of `itoa` once more.
- SHA-256, gzip and the tar header format: a digest, a buffer that may hold bytes back until it is closed, and header
  bytes. Which inputs share a hash is left to the digest, beyond those whose bytes are the same.
- The padding of each tar entry to 512 bytes, which the next header or the close writes: it counts as part of the opaque
  format, and no byte of it is in the model.
- Glob matching: any function from patterns to paths. A file that changes while one pass reads it, except for the
  length and read errors in `TarPipe`.
- Paths with a separator other than "/", and names that are not valid UTF-8.
- The characters that `strconv.Quote` prints unescaped: any table that agrees with ASCII.
- Registry credentials other than user and password, and the shell commands of pip, npm, apt, git, mkdir and the like:
  they only build the string that RunAs appends.
- Conversion of file modes to POSIX bits and of API records to SDK types; error mapping; request signing.
- User callbacks for output: they are taken to return. `Kill` and `SendStdin`: one request each.
- Chunks are copied before they are sent; aliasing of byte slices is not modelled.
- StartBuild.FinishStartBuild: an upload is given by the state in which its run of the pipe ended.
- TarPipe.TarUpload.AwaitReader: a blocking write waits for one read or one close, which is the other side's choice.
- WatchStream.WatchHandle.SendBlocking: a full queue is relieved by one read; waiting forever is a run of the machine.
