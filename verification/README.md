# fastr: a verified model of the transfer protocol

fastr moves files between devices on a local network: phones and browsers push
chunks to a computer, the computer stages, checks and places them, relays some of
them to a third device, or joins a sending and a receiving browser directly. This
project models that logic in Dafny and proves what it is meant to guarantee.

`dafny verify dfyconfig.toml` checks everything.

## How it is organised

| files | what they model |
|---|---|
| `Staging`, `Sinks`, `Upload`, `Incoming` | the receiving half of an upload: the copy loop, the staged file, the sink, opening after a restart, verification and placement |
| `Resume`, `Sender`, `Retry` | the upload as a protocol between pages and a computer that can crash at any step, the sending loop, and the retries around it |
| `Records`, `Service`, `Transfers` | the store (records, state table, queue, history) and the transfer service on top of it |
| `Calls` | what single service calls come to |
| `Lifecycle`, `ServiceRuns`, `Endings`, `Relay` | what every sequence of service calls keeps |
| `Pipe` | the rendezvous of receivers and senders, over all interleavings |
| `Positional`, `Framing`, `Group`, `Handshake`, `Envelope`, `Counters`, `Requests` | length framing, the pairing handshake, the sealed envelope, its counters, and the requests that use them |
| `Identifier` | 128-bit identifiers |
| `Platform`, `Naming` | file name rules and the search for a confined, free destination |

Code that updates state in place is a class whose methods do the same updates. Each
method is proved to compute a function on values, and the properties are proved about
sequences of those functions: every run, every interleaving, every input. Each event of
a run is what the program does under one lock, in one store transaction or in one
service call; the environment (which bytes arrive, which writes and syncs fail, when a
crash comes, what the network delivers) is an argument that the theorems quantify over.

Hashes are symbolic terms, so equal digests mean equal inputs. The cipher is ideal. The
group of the handshake is the integers modulo a prime.

## Findings

Properties that do not hold as the code or its comments suggest are stated with the
condition under which they do.

- A supplier whose receiver gives up between the lookup and the hand-over sends on a
  closed channel, which panics in Go; the comment at `internal/transfer/pipe.go:179`
  expects the full-channel branch, which is never taken
  (`PanicsExactlyWhenReceiverLeft`, `PanicIsReachable`, `FullChannelIsUnreachable`).
- A download of a relayed item that starts at the end of the file is accepted by
  `parseRangeStart` and completes the transfer with nothing streamed
  (`DeliversExactlyInside`, `EmptyDownloadCompletes`).
- `Start` takes the slot before it asks whether the transfer may run
  (`RawStartNeedsLive`, `RawStartOnCancelled`).
- `Commit` checks no digest when none is given, and a digest of a source that is longer
  than the declared size can be accepted for other bytes
  (`IntegrityExactlyWhen`, `AbsentDigestIsUnchecked`, `LongerSourceFools`).
- The download route at `internal/httpapi/transfer_handlers.go:193-207` also serves items
  of incoming transfers. A download of one records how far it got and completes the item
  with nothing verified or placed, lets a commit under the right digest place other bytes,
  and makes the next opening report a loss (`DownloadCompletesUnverified`,
  `DownloadCompletesNothing`, `DownloadDefeatsDigest`, `NeverLostExactlyWhen`).
- An item can be committed before its transfer was accepted, exactly when it is empty, and
  completed by a download whatever its size
  (`UnacceptedIsTakenExactlyWhen`, `EmptyFilesNeedNoAcceptance`).
- History can be erased while finished records stay, and failing such a record again
  brings its entry back (`RememberedUntilErased`).
- The byte limit on names is applied before " (2)" is added, so a placed name can exceed
  it (`PlacedNameFitsExactlyWhen`, `AlwaysFitsExactlyWhen`, `FullNameOverflows`).
- A page that takes a reply for a replay sends its request again, although the server has
  acted on it. That happens after a restart, when the server's reply counters start again,
  and without one when the replies of two requests of a page overtake each other
  (`ActedTwiceExactlyWhen`, `WithoutRestart`, `RestartActsTwice`, `OverlapActsTwice`).
- A remainder of 2^63 bytes or more turns the reader's limit negative: nothing is read,
  and the append still ends well (`HugeRemainderTakesNothing`).
- The default retry schedule waits 31 seconds in all; the comment at
  `web/src/lib/resume.ts:35-37` counts a sixth wait (`DefaultSchedule`).
- The browser's envelope has no check for the last counter, so it repeats nonces after
  2^64 messages, which the Go envelope refuses (`BrowserReusesNonceIff`).
- A counter block whose reservation could not be written is handed out again, and a
  page that seals more than a million messages runs into later blocks
  (`CountersRepeatExactlyWhen`, `LostClaimRepeatsBlock`, `OverrunRepeatsExactlyWhen`).

## Model

| member | source | states |
|---|---|---|
| Staging.CopyLockstep | internal/transfer/stream.go:76-133 | whatever fails in a copy, the hash has taken in a prefix of the body at least as long as what was counted, and when the two are equal in length the very same bytes went to the file |
| Staging.CopyExact | internal/transfer/stream.go:94-133 | on a disk that takes every write, file and hash grow by the same bytes, and a copy that ends well has moved the whole body up to its limit |
| Staging.GoodCopyIsWhole | internal/transfer/stream.go:94-133 | a copy that ended well moved the whole body, up to the limit |
| Staging.FailedWriteIsHashedNotCounted | internal/transfer/stream.go:94-133 | a write that fails after any passes counts for nothing, whatever of it landed, and is hashed as if it had succeeded |
| Staging.FlowingCopyIsWhole | internal/transfer/stream.go:94-133 | a body that the connection delivers to its end, in whatever pieces, to a disk that takes it is copied whole |
| Staging.AppendKeepsStep | internal/transfer/offsets.go:184-226 | every append keeps hash log >= acknowledged, with equality implying file = log; it acknowledges at most the declared size and never takes an acknowledgement back |
| Staging.AppendIsDurable | internal/transfer/offsets.go:211-226 | the acknowledged offset rises only after a sync that succeeded, and then the whole file is durable; bytes whose sync failed leave the offset, and the append is an error |
| Staging.AppendAcknowledgesAll | internal/transfer/offsets.go:211-220 | on a disk that takes every write and sync, all that reached the file is acknowledged, also of a body that broke off |
| Staging.AppendAnswers | internal/transfer/offsets.go:184-226 | when an append is refused as closed, mismatched or beyond the size, that it then touches nothing, and the offset it answers |
| Staging.AppendTakesAll | internal/transfer/offsets.go:184-226 | a chunk at the sink's offset that arrives whole and is synced is appended, hashed and acknowledged whole |
| Staging.HugeRemainderTakesNothing | internal/transfer/offsets.go:200-226 | while 2^63 bytes or more are missing an append takes nothing in and can still end well |
| Staging.CommitPlacesSource | internal/transfer/offsets.go:235-246 | a sink in step that acknowledged the declared size can place, under the digest of a source of that size, nothing but the source |
| Staging.OpenOutcomes | internal/transfer/offsets.go:72-111 | every way an opening can end: a loss exactly when the file is shorter than the record, success exactly when it can be opened, cut back and read, and what it leaves of the file |
| Staging.CommitOutcomes | internal/transfer/writer.go:127-164 | every way a commit can end: a mismatch exactly when a synced, closed file has another digest, a placement exactly when it matches and can be moved; what matched is placed or still staged |
| Sinks.Hasher.Write | internal/transfer/stream.go:94-133 | the hash log grows by the chunk |
| Sinks.Body.Read | internal/transfer/stream.go:94-133 | a read yields at most the buffer, the limit and what is left of the body |
| Sinks.StagedFile.Write | internal/transfer/writer.go:86 | a write appends the chunk, or only the part that landed before it failed |
| Sinks.StagedFile.Sync | internal/transfer/writer.go:93 | a sync that succeeds makes the whole file durable |
| Sinks.StagedFile.Truncate | internal/transfer/writer.go:101-110 | the file is cut back to the given length and nothing else changes |
| Sinks.StagedFile.Close | internal/transfer/writer.go:113-119 | closing twice is harmless |
| Sinks.StagedFile.Commit | internal/transfer/writer.go:127-164 | a mismatch deletes the file, a match moves it to the final path by rename or by copy, and every failure leaves what the source leaves |
| Sinks.StagedFile.CrossDeviceMove | internal/transfer/writer.go:191-226 | the destination holds the bytes exactly when the copy succeeded, and the staged file goes only after that |
| Sinks.StagedFile.Discard | internal/transfer/writer.go:167-173 | the file is closed and removed, or closed only when the removal fails; a missing file is no error; placed files stay |
| Sinks.StreamFile | internal/transfer/writer.go:230-249 | the copy through a buffer has the same bytes, whatever the sizes of its reads |
| Sinks.TotalsAreCopy | internal/transfer/stream.go:76-133 | the copy loop's running totals, started anywhere, add up to the copy of the rest of the body |
| Sinks.CopyOnce | internal/transfer/stream.go:94-133 | one pass of the loop: what was read is hashed, and then written or written in part |
| Sinks.Copy | internal/transfer/stream.go:76-133 | the hash-then-write loop has exactly the effect of the copy on hash, file, count and outcome, for every environment |
| Sinks.Rehash | internal/transfer/offsets.go:289-330 | the hash takes in exactly the first n bytes of the file, whatever the sizes of the reads |
| Sinks.Sink.Append | internal/transfer/offsets.go:184-226 | a wrong offset touches nothing and answers the right one; otherwise copy, sync and acknowledge as specified; a closed sink refuses |
| Sinks.Sink.Commit | internal/transfer/offsets.go:235-246 | the sink is closed whatever happens and a second commit does nothing |
| Sinks.Sink.Close | internal/transfer/offsets.go:262-271 | closing keeps what was hashed and what is on disk |
| Sinks.Sink.Discard | internal/transfer/offsets.go:273-282 | an open sink's file is removed unless that fails, a closed one's is left |
| Sinks.Sinks.Open | internal/transfer/offsets.go:72-111 | an open sink is reused; otherwise the file is cut back to the stored offset and rehashed, or fewer bytes than were acknowledged are reported as a loss; other items are untouched |
| Sinks.Sinks.OpenFile | internal/transfer/offsets.go:84-104 | the reopened hash is that of exactly the bytes left in the file |
| Sinks.Sinks.Append | internal/transfer/offsets.go:184-226 | an append to one item leaves every other item's file and sink as they were |
| Sinks.Sinks.Commit | internal/app/incoming.go:186-206 | after a commit the item has no sink, and the other items are untouched |
| Sinks.Sinks.Release | internal/transfer/offsets.go:115-124 | the sink is forgotten and the file stays for resuming |
| Sinks.Sinks.Discard | internal/transfer/offsets.go:127-137 | the sink is forgotten and its file gone unless its removal fails, which is reported; nothing placed is lost |
| Sinks.Sinks.DiscardStaged | internal/transfer/writer.go:182-187 | a staging file that no sink holds is removed unless that fails, the other items are untouched |
| Incoming.Computer.Receive | internal/app/incoming.go:84-126 | over sinks and record, the running computer makes exactly the receiving step of the protocol, including the stored offset and the answer |
| Incoming.Computer.TakeChunk | internal/app/incoming.go:90-99 | append to the open sink, record what it acknowledged, answer |
| Incoming.Computer.CommitItem | internal/app/incoming.go:149-233 | the running computer makes exactly the finishing step of the protocol; an item already complete is accepted again |
| Incoming.Computer.Place | internal/app/incoming.go:177-206 | verifying and placing, with the item failed when no destination is found or on any error |
| Upload.OpenIsSound | internal/transfer/offsets.go:72-111 | opening re-establishes the lockstep of hash and file from whatever is on disk |
| Upload.StepIsSteady | internal/transfer/offsets.go:184-246 | every event of the computer, downloads of the item and crashes included, keeps hash log >= acknowledged with equality implying equal bytes, and nothing is recorded past the declared size |
| Upload.StepIsSound | internal/transfer/offsets.go:184-246 | every event of the computer but a download of the item, crashes included, keeps what is recorded within what the sink acknowledged, and what is completed placed |
| Upload.CommitStepPlacesSource | internal/app/incoming.go:166-206 | a commit step that places anything under the digest of a source of the declared size places the source |
| Upload.FinishAnswers | internal/app/incoming.go:149-170 | a completion that verifies nothing: accepted again when completed, refused when the transfer is over or the item is not whole |
| Upload.FinishOutcomes | internal/app/incoming.go:166-206 | every way a whole item can end: completed exactly when it verifies and every step of placing it succeeds, mismatched exactly when it was closed with another digest, over in every other case, and what each leaves on the disk |
| Upload.FetchMeans | internal/httpapi/transfer_handlers.go:193-207 | a download past the end is refused; any other records how far it got and completes the item exactly when it ends well at or past the end |
| Upload.InterruptionsForget | internal/transfer/offsets.go:72-137 | a crash can leave any disk, a stop leaves it as it is, both forget the open sink and the calls under way; an end gives up the data and answers every later chunk with a refusal |
| Upload.IntegrityFrom | internal/transfer/offsets.go:184-246 | integrity from any sound state, over any further events but downloads of the item |
| Upload.IntegrityOfEveryRun | internal/transfer/offsets.go:184-246 | in every run of partial bodies, short writes, failed syncs, crashes and reopenings, without a download of the item and with commits that carry the digest of a source no longer than declared, the final path holds nothing or that source, and a completed item is that source |
| Upload.AnswersAreDurable | internal/transfer/offsets.go:211-220 | in every run of failing writes and syncs, power cuts and restarts, without downloads: an offset that was answered is recorded and durable until the item is placed or ended, and no opening misses any of it |
| Upload.IntegrityExactlyWhen | internal/transfer/offsets.go:184-246 | for every declared size, digest (or none) and source, and with or without downloads of the item: every run places nothing or the source, and completes only with the source in place, exactly when no download is served and a caller's check beforehand holds, on the size, the digest's length and the source |
| Upload.GuardedRun | internal/app/incoming.go:166-206 | the positive half, from any sound state, without downloads |
| Upload.UnguardedRun | internal/transfer/stream.go:94-133 | whenever that check fails, a run without downloads that places something else |
| Upload.AbsentDigestIsUnchecked | internal/transfer/writer.go:127-145 | without a digest, any file of any declared size below 2^63 can be placed |
| Upload.LongerSourceFools | internal/transfer/offsets.go:200-226 | under the digest of a source longer than declared, both its end of the declared size and the whole of it can be placed, for every such source and size |
| Upload.PlaceAfterLoss | internal/transfer/stream.go:94-133 | failing to write some bytes and then writing others places what landed of the first and all of the second, under the digest of both |
| Upload.DownloadCompletesNothing | internal/httpapi/transfer_handlers.go:193-207 | one download of an item of any size completes it with nothing placed |
| Upload.DownloadDefeatsDigest | internal/httpapi/transfer_handlers.go:193-207 | for every source: its bytes fail to be written, a broken download records the declared size, and a commit under the digest of the source places an empty file |
| Resume.OpenIsExact | internal/transfer/offsets.go:72-111 | reopening an honest item never finds less than was acknowledged and leaves file, hash and offset on one prefix of the source |
| Resume.AppendIsExact | internal/app/incoming.go:90-99 | an honest chunk keeps the item on a prefix of the source, wherever it stops |
| Resume.DeliverKeepsInv | internal/app/incoming.go:55-126 | a request that arrives late, stale or cut off keeps the protocol's invariant |
| Resume.NoteKeepsInv | internal/app/incoming.go:90-99 | recording an acknowledged offset, at once or after other calls, never takes the stored offset past what is durable |
| Resume.HearKeepsInv | web/src/lib/upload.ts:182-198 | a page that hears an answer has hashed the source up to the offset it now holds |
| Resume.CompleteKeepsInv | internal/app/incoming.go:149-233 | a completion keeps the invariant whoever asks for it |
| Resume.RestartKeepsInv | internal/transfer/offsets.go:72-111 | losing every unsynced byte and every open sink keeps the invariant |
| Resume.StepKeepsInv | internal/app/incoming.go:55-233 | every step of pages, network and computer keeps the invariant, but for a download of the item |
| Resume.EveryRunIsExact | internal/transfer/offsets.go:72-111 | in every run without downloads of the item with lost replies, stale requests, rewinds, crashes and restarts, the acknowledged bytes are that prefix of the source, stored offset <= acknowledged <= size, stored offset <= durable length so that no reopening before the item is placed reports a loss, and each page's hash is the source up to its offset |
| Resume.EveryDigestVerifies | web/src/lib/upload.ts:209-213 | in every run without downloads of the item a page that reached the end posts a digest that the computer accepts |
| Resume.StoredOnlyGrows | internal/app/incoming.go:90-99 | no run takes the stored offset back, from any state |
| Resume.RepliesAreKept | internal/app/incoming.go:55-126 | in every run, downloads included: once a page was told that bytes are durable, no later run, with any crash or download in it, asks for them again |
| Resume.EverySourceArrives | internal/app/incoming.go:55-233 | every source can arrive: from the start, over a connection that delivers its chunks, a run of the protocol places it |
| Resume.RunIsTruthful | internal/app/incoming.go:55-126 | downloads included, every accepted answer names the end of its request and is covered by the record |
| Resume.NeverLostExactlyWhen | internal/transfer/offsets.go:84-104 | acknowledged bytes are never reported lost, in any run, exactly when no download of the item is served or the item is empty |
| Resume.DownloadLosesTheItem | internal/httpapi/transfer_handlers.go:193-203 | one broken download of an item of which nothing was received makes every later opening report a loss |
| Sender.AnswerIsTrue | web/src/lib/upload.ts:253-263 | an accepted chunk started where the computer resumes and arrived whole; a correction names where it resumes instead; after either, the page stands where neither record nor sink will ask for less |
| Sender.OneExchange | web/src/lib/upload.ts:172-199 | after any restarts, other pages, downloads, completions and cancels, an answer moves the page strictly forward, corrections too, unless the record had run ahead of the open sink; a page that stands where the computer resumes is corrected only after such a disturbance |
| Sender.FinishKeepsGenuine | web/src/lib/upload.ts:209-213 | a completion under the digest of the source that is answered well has placed the source |
| Sender.Finish | web/src/lib/upload.ts:209-213 | the last request: told that all is well, the page posted its digest and the item is completed, with the source in place unless a download or another digest interfered |
| Sender.CalmChunkIsAnswered | internal/app/incoming.go:55-126 | a chunk that arrives whole at a ready item, on a disk that takes it, is accepted or corrected, never refused |
| Sender.HonestDisturbancesStayReady | internal/app/incoming.go:55-233 | restarts, chunks of the source and completions under its digest, in any order, leave an item ready for the next pass |
| Sender.CancelledIsOver | internal/app/incoming.go:68-70 | once the transfer was cancelled chunks are refused, and an item that was not completed cannot be finished |
| Sender.PostChunk | web/src/lib/upload.ts:238-267 | one chunk request: an answer moves a page that stands on the ground forward, and over a calm exchange there is one |
| Sender.HashPrefix | web/src/lib/upload.ts:273-284 | chunk by chunk, the hash takes in exactly the first bytes of the file |
| Sender.SendItem | web/src/lib/upload.ts:155-214 | the sending loop ends against every network, in at most as many rounds as bytes are missing from the record (one more, and counted from the open sink, when downloads took the record past it); it throws, or the digest of the whole source was posted and the item is completed, with the source in place when no download and no other digest interfered; stored bytes are never lost, and it is corrected at most once plus once per disturbed exchange; over a calm network to a ready item it posts, with no more chunks than the missing bytes fill |
| Retry.WithResume | web/src/lib/resume.ts:95-123 | over all attempts, against every network, nothing stored is lost; delivery means the digest of the whole source was posted and the item completed, with the source in place when no download and no other digest interfered; giving up means every attempt was made and failed like the network, and being refused that the last failure did not; the page waits no longer than scheduled, and exactly as long when no wait was disturbed; in an honest world the first attempt over a calm network that is reached delivers |
| Retry.WaitsAtMost | web/src/lib/resume.ts:176-198 | a wait is never longer than scheduled, and shorter exactly when the network came back or a stop came before its end |
| Retry.DefaultSchedule | web/src/lib/resume.ts:44-56 | the default schedule waits five times, 31 seconds in all, and never reaches its ceiling |
| Retry.WaitsAreBounded | web/src/lib/resume.ts:52-56 | the waits of any schedule add up to at most the ceiling for each attempt |
| Records.TransitionShape | internal/store/transfers.go:48-77 | the table: terminal states are left by nothing, every live state can fail or be cancelled, completed is reached only from verifying, verifying only from running, interrupted only from the two busy states |
| Records.Store.PutTransfer | internal/store/transfers.go:227-234 | a record is stored exactly when it validates, and otherwise nothing changes |
| Records.Store.SetTransferState | internal/store/transfers.go:262-289 | an allowed move sets state, cause and stamps; a refused one changes nothing |
| Records.Store.AdvanceItem | internal/store/transfers.go:295-326 | an item moves forward within its size and the record's count with it; anything else changes nothing |
| Records.Store.EnqueueTransfer | internal/store/transfers.go:389-403 | at the back of the waiting list, once |
| Records.Store.Filter | internal/store/transfers.go:409-429 | the filtering loop removes every occurrence of one transfer and keeps the order of the others |
| Records.Store.ActivateTransfer | internal/store/transfers.go:409-429 | the slot is taken and the transfer leaves the waiting list, unless another transfer holds the slot |
| Records.Store.DeactivateTransfer | internal/store/transfers.go:434-449 | only the holder frees the slot, and only it is requeued |
| Records.Store.ReorderQueue | internal/store/transfers.go:456-483 | the loop that counts occurrences accepts exactly what the specification accepts |
| Records.Store.DequeueTransfer | internal/store/transfers.go:486-501 | every occurrence leaves the waiting list |
| Records.Store.Remember | internal/store/history.go:65-97 | history gains the outcome, cause and end time of a finished record and nothing for a live one |
| Records.Store.DeleteTransfer | internal/store/transfers.go:329-333 | the record is gone and history stays |
| Records.Store.EraseHistory | internal/store/history.go:131-139 | every entry is gone and nothing else changes |
| Transfers.Transfers.CheckDeclared | internal/app/transfers.go:155-188 | the loop over the proposed items finds the same first fault, or the same total and fresh items, as the specification |
| Transfers.Transfers.Declare | internal/app/transfers.go:131-285 | the whole new state and the answer of a declaration, with every reason to refuse in the program's order |
| Transfers.Transfers.Start | internal/app/transfers.go:395-409 | the slot first, then the state, as in the program |
| Transfers.Transfers.Progress | internal/app/transfers.go:415-431 | a recorded offset, or no change when the store refuses it |
| Transfers.Transfers.Interrupt | internal/app/transfers.go:435-445 | the slot is freed and its holder goes to the back of the list |
| Transfers.Transfers.DiscardRelay | internal/app/relay.go:80-88 | only a relayed transfer's directory goes |
| Transfers.Transfers.Fail | internal/app/transfers.go:507-526 | a live transfer fails with the cause, leaves the slot, is remembered and loses its relay directory; a finished one keeps its ending |
| Transfers.Transfers.Complete | internal/app/transfers.go:449-491 | the item is marked; the last item takes a running transfer through verifying to completed |
| Transfers.Transfers.Cancel | internal/app/transfers.go:529-563 | a live transfer is cancelled and leaves slot, list and relay; a finished one is untouched |
| Transfers.Transfers.Accept | internal/app/transfers.go:292-327 | an answer within two minutes queues the transfer, a later one fails it, a second one changes nothing, and a finished one is told why |
| Transfers.Transfers.Decline | internal/app/transfers.go:331-341 | a live transfer fails as declined |
| Transfers.Transfers.ExpireAcceptances | internal/app/transfers.go:350-369 | the loop fails exactly the transfers that have waited two minutes or more for an answer |
| Transfers.Transfers.EraseHistory | internal/app/history.go:52-59 | history is emptied and nothing else changes |
| Transfers.Transfers.StartIfQueued | internal/app/incoming.go:78-82 | only a waiting transfer is started |
| Transfers.Transfers.Receive | internal/app/incoming.go:55-126 | the effect of one chunk on slot, record and relay directory, with every refusal |
| Transfers.Transfers.Take | internal/app/incoming.go:84-126 | the receiving half after the checks: record what became durable, then answer, fail or interrupt by the kind of fault |
| Transfers.Transfers.CommitItem | internal/app/incoming.go:149-233 | the checks before an item is verified, and what it comes to |
| Transfers.Transfers.StageRelayed | internal/app/relay.go:152-172 | a verified relayed item becomes verifying, not completed |
| Transfers.Transfers.Deliver | internal/httpapi/relay_handlers.go:28-113 | only the target collects, only a staged item is served, a broken download interrupts, one that reaches the end completes |
| Transfers.Transfers.Recover | internal/app/transfers.go:578-606 | the loop over all records interrupts what a crash left busy |
| Transfers.Transfers.Sweep | internal/app/transfers.go:615-669 | abandoned transfers end and their records go; then only live transfers keep a relay directory |
| Transfers.Transfers.SweepTransfer | internal/store/sweep.go:122-163 | fail, remember, dequeue, free the slot, delete |
| Calls.AnsweredInTime | internal/app/transfers.go:292-327 | an answer queues the transfer and changes nothing else until two minutes have passed, and fails it as timed out from then on; a transfer that is over says why |
| Calls.FailedMeans | internal/app/transfers.go:507-526 | a live transfer that fails ends with that cause, stamped and remembered, out of the slot, and nothing of the others changes |
| Calls.StartedMeans | internal/app/transfers.go:395-409 | a waiting transfer takes the free slot, is stamped once and leaves the list, or is refused because another runs |
| Calls.StartAnswers | internal/app/transfers.go:395-409 | what a start answers from any state: busy exactly when another holds the slot, otherwise well exactly from the states that may run |
| Calls.ReceivedMeans | internal/app/incoming.go:55-126 | one chunk from every state: who is refused, what is recorded, and which fault fails the transfer, which interrupts it and sends it to the back, and which leaves it running |
| Calls.CompletedMeans | internal/app/transfers.go:449-491 | completing the last open item ends a running transfer as completed; any other only marks its item |
| Calls.CancelledMeans | internal/app/transfers.go:529-563 | cancelling ends what is live, out of slot and list and remembered as cancelled, and touches nothing that is over |
| Calls.DeclinedMeans | internal/app/transfers.go:331-341 | declining fails what is live as declined and touches nothing that is over |
| Calls.CommittedMeans | internal/app/incoming.go:149-233 | who may commit an item, and which outcome of verification fails the transfer with which cause, stages a relayed item or completes another |
| Calls.PipedMeans | internal/httpapi/transfer_handlers.go:190-207 | a download through the pipe records how far it got; broken it interrupts, at the end it completes the item |
| Calls.CollectedMeans | internal/httpapi/relay_handlers.go:39-113 | a relayed item is handed to its target once it is verified, and completed when the download reaches its end |
| Calls.AbandonedWhen | internal/store/sweep.go:98-121 | a transfer is abandoned exactly when it is live and its proposal, first start and last progress all lie seven days back |
| Calls.OverdueWhen | internal/app/transfers.go:350-369 | an acceptance is overdue exactly when the transfer waits for one and was proposed two minutes ago or more |
| Calls.ExpiredMeans | internal/app/transfers.go:350-369 | looking after acceptances fails exactly the visited transfers that have waited two minutes or more, and leaves every other record as it is |
| Calls.CheckedWhen | internal/app/transfers.go:155-188 | files are taken exactly when each is named, each is placeable if it is for this machine, and the sizes add up to less than 2^64 |
| Calls.RefusedFor | internal/app/transfers.go:155-188 | what the first file that is refused is refused for |
| Calls.DirectionMeans | internal/app/transfers.go:146-148 | a transfer is incoming exactly when it is for this machine, outgoing exactly when it is from it, and relayed otherwise |
| Calls.DeclaredMeans | internal/app/transfers.go:131-285 | exactly when a proposal is refused, with nothing changed, and otherwise the whole record and the place in the list |
| Calls.DeclinedFor | internal/app/transfers.go:131-258 | the reasons to refuse a proposal, in the order in which they are looked at |
| Calls.UnknownIsRefused | internal/app/transfers.go:292-563 | a transfer that nobody knows is refused by every call and nothing changes |
| Calls.UnfitIsRefused | internal/app/transfers.go:449-470 | an item that is not there and a range past the end are refused, and nothing changes |
| Calls.StoredExactlyWhen | internal/store/transfers.go:227-234 | a record is stored exactly when it has items, two different named devices and a total that is the sum of its sizes modulo 2^64 |
| Calls.StoreAnswers | internal/store/transfers.go:262-326 | what the store answers to a change of state or of an offset, and that an error changes nothing |
| Lifecycle.CheckedTotal | internal/app/transfers.go:155-188 | a proposal of named, placeable files passes exactly when its sizes add up to less than 2^64, and the total is that sum |
| Lifecycle.StartKeeps | internal/app/transfers.go:395-409 | starting a waiting transfer keeps the invariant and is refused exactly when the slot is taken |
| Lifecycle.InterruptKeeps | internal/app/transfers.go:435-445 | interrupting keeps the invariant |
| Lifecycle.FailKeeps | internal/app/transfers.go:507-526 | failing keeps the invariant, from any state |
| Lifecycle.SettleAgain | internal/app/transfers.go:507-526 | ending what is over writes its history entry once more and changes nothing else: nothing at all exactly when the entry is still there |
| Lifecycle.ProgressKeeps | internal/store/transfers.go:295-326 | recording progress keeps the counts exact |
| Lifecycle.CompleteKeeps | internal/app/transfers.go:449-491 | completing an item keeps the invariant, if it may complete: a relayed item when it was staged and collected, an incoming one when it was verified or collected |
| Lifecycle.CompleteUnfolds | internal/app/transfers.go:449-491 | the last item of a running transfer ends it; of a transfer that does not run it marks the item and is refused |
| Lifecycle.DeclareKeeps | internal/app/transfers.go:131-285 | declaring keeps the invariant |
| Lifecycle.AcceptKeeps | internal/app/transfers.go:292-327 | accepting keeps the invariant, in time or late |
| Lifecycle.CancelKeeps | internal/app/transfers.go:529-563 | cancelling keeps the invariant |
| Lifecycle.ReceiveKeeps | internal/app/incoming.go:55-126 | receiving keeps the invariant whatever staging reports |
| Lifecycle.CommitItemKeeps | internal/app/incoming.go:149-233 | committing an item keeps the invariant whatever verification reports |
| Lifecycle.DeliverKeeps | internal/httpapi/relay_handlers.go:28-113 | serving a download keeps the invariant |
| ServiceRuns.StepKeeps | internal/app/transfers.go:131-669 | every service call keeps the invariant |
| ServiceRuns.OneAtATime | internal/app/transfers.go:395-563 | after any calls the slot is taken exactly when a transfer is running or verifying, and it names that one |
| ServiceRuns.NothingIsLost | internal/store/transfers.go:389-501 | after any calls every live transfer is active or waiting, nothing waits twice, and what runs does not wait |
| ServiceRuns.ReorderTakesPermutations | internal/store/transfers.go:456-483 | after any calls a reorder succeeds exactly on the permutations of what waits, and then the list is that order |
| ServiceRuns.RecoveryIsExact | internal/app/transfers.go:578-606 | recovery empties the slot, sends its holder to the back as interrupted with every offset kept, touches nothing else and is idempotent |
| ServiceRuns.RecoverIs | internal/app/transfers.go:578-606 | recovery does the same in whatever order it visits the records |
| ServiceRuns.BytesAddUp | internal/store/transfers.go:295-326 | after any calls the transferred bytes are the sum of the offsets, each at most its size, the total is the sum of the sizes, and no 64-bit addition wraps |
| ServiceRuns.RelayDirsAreInFlight | internal/app/relay.go:124-145 | after any calls a relay directory belongs to a live relayed transfer |
| ServiceRuns.SweepRestores | internal/app/relay.go:124-145 | from any leftover directories of relayed or unknown transfers a sweep re-establishes the whole invariant, and keeps exactly the directories of live transfers that it does not end as abandoned |
| ServiceRuns.SweepSurvivors | internal/store/sweep.go:98-163 | a sweep deletes exactly the records that are live, untouched for seven days and visited |
| ServiceRuns.ClearKeeps | internal/app/history.go:52-59 | erasing the history keeps the invariant |
| ServiceRuns.SweepKeeps | internal/store/sweep.go:98-163 | sweeping keeps the invariant |
| ServiceRuns.EndingsAreRecorded | internal/store/history.go:48-97 | after any calls a record has an end time exactly when it is over, completed means every item is, and history, while it holds a record, holds its outcome, cause and end time |
| ServiceRuns.CompletedWasVerifiedOrFetched | internal/app/incoming.go:186-233 | after any calls, a completed item of an incoming transfer was verified by a commit or a download of it ran to its end |
| ServiceRuns.DownloadCompletesUnverified | internal/httpapi/transfer_handlers.go:193-207 | a download of an incoming item that is not completed yet completes it exactly when it is not broken and reaches the end, and verifies nothing |
| ServiceRuns.UnacceptedIsTakenExactlyWhen | internal/app/incoming.go:149-170 | while a transfer waits for acceptance nothing of it is received; an item of it can be committed exactly when its recorded offset is its size, and completed by a download exactly when it is incoming |
| ServiceRuns.EmptyFilesNeedNoAcceptance | internal/app/incoming.go:149-170 | of a transfer as it was declared, before anybody accepted it, exactly the empty files can be committed, and every file of an incoming one can be completed by a download |
| ServiceRuns.RawStartNeedsLive | internal/app/transfers.go:395-409 | a start without the routes' check leaves a sound slot exactly when the slot was taken or the transfer is live |
| ServiceRuns.RawStartOnCancelled | internal/app/transfers.go:395-409 | started after a cancel, a transfer holds the slot although it is over |
| Endings.EndingsAreFinal | internal/store/transfers.go:48-76 | over any further calls, erasures of the history among them, a finished record keeps its state, cause and end time |
| Endings.EntriesNeverDiffer | internal/store/history.go:65-97 | two history entries under one identifier are equal, whatever calls lie between, also of deleted records |
| Endings.RememberedUntilErased | internal/app/history.go:52-59 | the call that ends a transfer writes its entry, and from then on the entry is there exactly when every later erasure was followed by another attempt to fail the finished transfer |
| Endings.RunRemembers | internal/app/history.go:52-59 | the same from any state and for any finished transfer, by the last call that matters |
| Endings.OffsetsOnlyGrow | internal/store/transfers.go:295-326 | over any further calls no item moves back or past its size |
| Relay.RelayedMeansReceived | internal/httpapi/relay_handlers.go:39-113 | a relayed item that is complete was verified here and a download by its target ran to its end; if the downloads of this item start inside the file the target was sent its last byte, and if they start no later than those before got to, every byte of it |
| Relay.OnlyTheTargetCollects | internal/httpapi/relay_handlers.go:31-37 | in every state, a download of a relayed item by any device but the target is refused as not found and changes nothing |
| Relay.RelayedGoesToTarget | internal/httpapi/relay_handlers.go:31-113 | after any calls, everything streamed of a relayed item went to the target of its transfer, and an item counted as collected was streamed to it up to its end |
| Relay.DeliversExactlyInside | internal/httpapi/relay_handlers.go:90-113 | a download that runs to the end newly sends the last byte exactly when it starts inside the file, and leaves the target with the whole file exactly when everything before its start was streamed before |
| Relay.EmptyDownloadCompletes | internal/httpapi/transfer_handlers.go:308-347 | a run in which a range that starts at the end completes a relayed transfer with no byte streamed |
| Pipe.StepKeepsInv | internal/transfer/pipe.go:76-229 | every step of every interleaving keeps the rendezvous consistent: who took a demand, what is in its channels, what each side may be told |
| Pipe.NilMeansReceived | internal/transfer/pipe.go:156-183 | a supplier is told nil only if the unique receiver of that very body, for that item and offset, called finish with nil |
| Pipe.FineWasFinished | internal/transfer/pipe.go:77-85 | a demand closed with nil was closed by the receiver streaming it, and that was the first close |
| Pipe.BodiesAreNotShared | internal/transfer/pipe.go:156-183 | over any continuation, two receivers hold the same body exactly when they are the same demand |
| Pipe.RegisteredIsOpen | internal/transfer/pipe.go:106-148 | a demand in the map is open and its receiver has not returned |
| Pipe.ClaimedOnce | internal/transfer/pipe.go:106-229 | a demand is out of the map exactly when a supplier, a cancel, a newer request or its own receiver took it, and that never changes |
| Pipe.OnlyOwnStepsUnregister | internal/transfer/pipe.go:222-229 | a registration ends exactly by a newer request, a supplier, a cancel or its own receiver giving up, so a superseded demand never evicts its replacement |
| Pipe.FullChannelIsUnreachable | internal/transfer/pipe.go:176-180 | a supplier is told that nobody waits exactly when it found nobody in the map; the channel it offers into is empty |
| Pipe.PanicsExactlyWhenReceiverLeft | internal/transfer/pipe.go:176-180 | a hand-over panics exactly when the offsets agree and the receiver returned after the lookup |
| Pipe.PanicIsReachable | internal/transfer/pipe.go:143-180 | from every state with a claimed demand whose receiver waits, three steps of the receiver lead there |
| Pipe.PanicFromTheStart | internal/transfer/pipe.go:106-180 | a run of six events from an empty rendezvous that ends in the panic |
| Pipe.OneOutcomeEach | internal/transfer/pipe.go:176-183 | a supplier that handed over can collect exactly when the receiver finished or gave up, gets the receiver's outcome, and never another |
| Pipe.ClosedWithWhat | internal/transfer/pipe.go:77-229 | for every step of every run: which outcome it closes an open demand with, if it closes it at all |
| Pipe.ReturnsWhat | internal/transfer/pipe.go:131-148 | for every step of every run: whether it hands a waiting receiver a body or an error, and which |
| Pipe.FinishIsTold | internal/transfer/pipe.go:136-182 | the supplier of a body being streamed is told nil exactly when the receiver finishes with nil, and a failed copy otherwise, over any continuation |
| Pipe.GivingUpIsTold | internal/transfer/pipe.go:138-182 | the supplier of a body never taken is told that the receiver went away when it dropped, and that there was no supplier when it timed out |
| Pipe.CancelReleases | internal/transfer/pipe.go:198-211 | a cancel takes the waiting demand out of the map, closes it as cancelled and releases its receiver with the error of an absent supplier |
| Pipe.NewerReleases | internal/transfer/pipe.go:114-134 | a newer request for the item takes the place of the older one and releases its receiver in the same way |
| Pipe.NobodyWaits | internal/transfer/pipe.go:157-166 | a supplier that finds nobody waiting is told so at once, and nothing else changes |
| Pipe.FineFromTheStart | internal/transfer/pipe.go:106-183 | a run of six events from an empty rendezvous in which a supplier is told nil |
| Pipe.NothingIsTakenBack | internal/transfer/pipe.go:77-183 | over any continuation takers, closings, bodies received and outcomes told stay as they are |
| Pipe.Pipes.Register | internal/transfer/pipe.go:114-122 | the locked half of a wait is the registration step, superseding the older demand |
| Pipe.Pipes.Receive | internal/transfer/pipe.go:131-136 | the body in the channel is taken, or a closed channel is reported |
| Pipe.Pipes.Abandon | internal/transfer/pipe.go:138-147 | a wait that is cancelled or times out leaves the select |
| Pipe.Pipes.RemoveIfCurrent | internal/transfer/pipe.go:222-229 | a demand removes itself only while it is the current one |
| Pipe.Pipes.Release | internal/transfer/pipe.go:138-147 | the receiver closes its demand with the reason and returns its error |
| Pipe.Pipes.Finished | internal/transfer/pipe.go:136 | the copy's outcome closes the demand, once |
| Pipe.Pipes.Close | internal/transfer/pipe.go:77-85 | only the first close has an effect |
| Pipe.Pipes.Lookup | internal/transfer/pipe.go:157-166 | the locked half of a supply takes the demand out of the map |
| Pipe.Pipes.HandOver | internal/transfer/pipe.go:168-180 | a wrong offset closes the demand; otherwise the body is handed over, the channel is full, or it is closed |
| Pipe.Pipes.AwaitOutcome | internal/transfer/pipe.go:182 | the outcome is taken out of the channel and returned |
| Pipe.Pipes.CancelLookup | internal/transfer/pipe.go:199-205 | a cancel takes the demand out of the map |
| Pipe.Pipes.CancelClose | internal/transfer/pipe.go:207-209 | and closes it as cancelled |
| Pipe.Pipes.PendingOffset | internal/transfer/pipe.go:187-196 | an offset is reported exactly when a demand waits, and it is that of an open demand nobody has taken |
| Framing.LebRoundTrip | internal/pairing/cpace.go:103-118 | decoding inverts the length encoding for every length, whatever follows |
| Framing.FramesArePrefixFree | internal/pairing/cpace.go:103-118 | a frame can be split off the front of any bytes in one way |
| Framing.EncodeFrame | internal/pairing/cpace.go:103-118 | the encoding loop computes the frame |
| Framing.EncodeFrames | internal/pairing/cpace.go:121-127 | the concatenating loop computes the concatenation |
| Framing.FramesAreUniquelyDecodable | internal/pairing/cpace.go:121-127 | a concatenation of frames determines the number and the content of its parts |
| Framing.GeneratorStringIsInjective | internal/pairing/cpace.go:137-143 | the generator string determines the code, the channel and the session identifier |
| Framing.FirstBlockIsFull | internal/pairing/cpace.go:129-143 | separator, code and padding fill exactly one 128-byte block for codes of at most 108 bytes and for no others, and the padding is zeros |
| Framing.IskInputIsInjective | internal/pairing/cpace.go:227-233 | the session key's input determines every field of the transcript |
| Framing.HashInputsAreSeparated | internal/pairing/cpace.go:59-65 | the generator and the session key never hash the same bytes |
| Group.NoZeroDivisors | internal/pairing/cpace.go:205-216 | in a prime-order group the product is the identity exactly when the secret is zero or the element is the identity |
| Group.DifferentElementsStayDifferent | internal/pairing/cpace.go:48-51 | a non-zero secret maps different elements to different elements |
| Group.SecretsCommute | internal/pairing/cpace.go:43-46 | both orders of applying two secrets give one point |
| Handshake.RefusedExactlyWhen | internal/pairing/cpace.go:205-216 | a message is refused exactly when it encodes nothing, encodes the identity, or the secret is zero |
| Handshake.TranscriptIsBound | internal/pairing/handshake.go:234-242 | two exchanges have one key exactly when they agree on the shared point and on every part of the transcript; the tags tell them apart as the keys do |
| Handshake.SharedPoints | internal/pairing/cpace.go:191-216 | the two sides' shared points are equal exactly when their generators are |
| Handshake.KeysMatchExactlyWhen | internal/pairing/handshake.go:220-242 | after an undisturbed exchange both sides finish, with one key and one tag exactly when generator, session and handshake identifier are the same |
| Handshake.AgreementMeansSameCode | internal/pairing/handshake.go:220-242 | sharing code and host is enough to agree; agreeing without it needs two different strings that hash to one generator |
| Handshake.ConsumedByFirstComplete | internal/pairing/handshake.go:169-189 | whatever the first completion presents, every further one finds nothing until a new handshake starts under that identifier |
| Handshake.RegisteredWasBegun | internal/pairing/handshake.go:119-157 | what is registered was derived by the latest successful start under that identifier, untouched since |
| Handshake.AgreedMeansProven | internal/pairing/handshake.go:169-189 | a key is given out only for the tag its own start expects, within three minutes, at its first completion, with the code it was bound to |
| Handshake.BegunExactlyWhen | internal/pairing/handshake.go:119-157 | a start is refused exactly for a session identifier of another length than sixteen or a share that cannot be computed; otherwise what is registered and answered |
| Handshake.CompletedExactlyWhen | internal/pairing/handshake.go:169-189 | every answer to a completion: unknown, expired after more than three minutes, a wrong proof with the code to charge, or the key |
| Handshake.SweptExactlyWhen | internal/pairing/handshake.go:246-253 | a sweep keeps exactly what is at most three minutes old |
| Handshake.SurvivesOthers | internal/pairing/handshake.go:246-253 | other exchanges and sweeps never remove a young handshake |
| Handshake.ExchangeDecidesTheAnswer | internal/pairing/handshake.go:119-189 | whatever happens in between, a device that took part is given its own key when its generator is the host's and otherwise a refusal naming the code to charge |
| Handshake.Handshakes.Sweep | internal/pairing/handshake.go:246-253 | the loop drops exactly the entries older than three minutes |
| Handshake.Handshakes.Begin | internal/pairing/handshake.go:119-157 | the answer and the registry after a start, a refused one recording nothing |
| Handshake.Handshakes.Complete | internal/pairing/handshake.go:169-189 | the answer of a completion; the entry is gone in every case |
| Envelope.NonceIsInjective | internal/pairing/envelope.go:105-110 | two messages share a nonce exactly when they go the same way and their counters are congruent modulo 2^64 |
| Envelope.NonceLayout | internal/pairing/envelope.go:105-110 | a nonce is twelve bytes: the way of the message, its counter most significant byte first, and three zeros |
| Envelope.AadIsInjective | internal/pairing/envelope.go:117-124 | with methods free of zero bytes the associated data determines method, path and the low 32 bits of the version |
| Envelope.ZeroInMethodConfuses | internal/pairing/envelope.go:117-124 | with a zero byte in the method one message passes for two endpoints |
| Envelope.FailedOpenChangesNothing | internal/pairing/envelope.go:150-181 | the state changes exactly when opening succeeds, and then the high-water mark rises |
| Envelope.OpensAsSealed | internal/pairing/envelope.go:166-176 | a box that opens was sealed in this direction, under this counter and for this endpoint |
| Envelope.StepKeepsInv | internal/pairing/envelope.go:127-181 | sealing and opening on both sides, against any network, keep what was accepted an in-order part of what was sent |
| Envelope.AcceptsAnInOrderPart | internal/pairing/envelope.go:105-181 | against a network that drops, reorders, repeats, reflects, redirects and forges, each side accepts an in-order, at-most-once part of what the other sealed, for the same method, path and version |
| Envelope.NoncesAreNeverReused | internal/pairing/envelope.go:127-144 | no two messages of a pair, in either direction, share a nonce |
| Envelope.HonestDeliveryIsAccepted | internal/pairing/envelope.go:150-181 | an untouched message that nothing later overtook is accepted |
| Envelope.TwinsAgree | web/src/crypto/envelope.ts:112-158 | browser and server seal the same bytes until the last counter, accept the same messages with the same effect, and name replays alike but for a zero counter |
| Envelope.BrowserCounters | web/src/crypto/envelope.ts:112-125 | the i-th message of any sequence sealed by one browser envelope carries the start counter plus i, counted from one, in header and nonce |
| Envelope.BrowserReusesNonceIff | web/src/crypto/envelope.ts:112-125 | the messages sealed by one browser envelope have different nonces exactly when there are at most 2^64 of them |
| Envelope.Envelope.Seal | internal/pairing/envelope.go:127-144 | the counter advances by one per message, and the last counter is refused |
| Envelope.Envelope.Open | internal/pairing/envelope.go:150-181 | replay, malformed and unauthentic messages are told apart in the program's order |
| Envelope.Envelope.constructor | internal/pairing/envelope.go:83-100 | the receive direction is the other one and the counter starts where told |
| Envelope.NewEnvelopeAt | internal/pairing/envelope.go:83-100 | an envelope is made exactly from a key of 32 bytes |
| Envelope.BrowserEnvelope.Seal | web/src/crypto/envelope.ts:112-125 | the browser's sealing step |
| Envelope.BrowserEnvelope.Open | web/src/crypto/envelope.ts:128-158 | the browser's opening step |
| Counters.BlocksAreDisjoint | web/src/lib/session.ts:33-58 | blocks that are not overrun use disjoint ranges, increasing in the order they were claimed |
| Counters.CountersRepeatExactlyWhen | web/src/lib/session.ts:33-58 | in every run, with claims written or lost, two pages seal under one counter exactly when the later one sealed at all and the earlier one sealed more than a million messages for every claim written in between |
| Counters.OverrunRepeatsExactlyWhen | web/src/lib/session.ts:33-58 | with all claims written, two blocks share a counter exactly when the earlier one was overrun by as many blocks as lie between and the later one was used |
| Counters.RefusedOnlyByLaterBlocks | internal/pairing/envelope.go:160-165 | a message is refused exactly when one with a counter at least as high was accepted, which is from its own block or a later one |
| Counters.RetryFromFreshBlockIsAccepted | web/src/lib/session.ts:239-248 | after any history a new block lies above the high-water mark, and its messages are refused only after a message of this or a later block |
| Counters.LostClaimRepeatsBlock | web/src/lib/session.ts:51-56 | with no claim written in between, the later page has the same block, and counters repeat exactly when both have sealed |
| Counters.NoCounterIsSkipped | web/src/crypto/envelope.ts:112-125 | in every run the messages of a page are numbered from its start, counted from one, without a gap |
| Counters.AcceptedExactlyWhen | internal/pairing/envelope.go:160-179 | in every run a message that arrives is accepted exactly when every accepted one has a lower counter |
| Counters.OlderPageIsRefused | web/src/lib/session.ts:33-58 | a run of five events in which a message of the older of two pages is refused |
| Counters.Storage.ReserveCounterBlock | web/src/lib/session.ts:42-58 | the block starts at what is stored, or at zero when that is absent, unreadable or negative |
| Requests.StepKeepsInv | web/src/lib/session.ts:239-292 | every step of pages, network and server, with requests and replies under way and restarts, keeps what each side remembers the highest of what it took |
| Requests.ReplayExactlyWhen | web/src/lib/session.ts:273-286 | a page takes a reply for a replay exactly when its envelope was given one with a counter at least as high before |
| Requests.RetriedExactlyWhen | web/src/lib/session.ts:239-248 | in every run, a request is retried exactly when the page was told that the server refused it, or opened its reply after one with a counter at least as high had been opened by the same envelope |
| Requests.ActedTwiceExactlyWhen | web/src/lib/session.ts:239-292 | in every run, the server acts on a request twice exactly when its reply was opened after one with a counter at least as high had been opened by the same envelope, and the retry got through |
| Requests.RefusedExactlyWhen | internal/pairing/envelope.go:160-165 | in every run, a try that arrives is refused exactly when it has a body and the server took a counter at least as high since it was started |
| Requests.NoReplyNoRetry | web/src/lib/session.ts:273-274 | a request whose reply is empty is acted on at most once, and an answer without content ends it |
| Requests.NothingIsStuck | web/src/lib/session.ts:239-292 | in every run a page can hear exactly the answers that have come, and a retry follows every replay |
| Requests.RepliesAreNumbered | internal/pairing/envelope.go:127-144 | in every run the server numbers its replies from one after every start, without a gap |
| Requests.SendMeans | web/src/lib/session.ts:250-259 | a request with a body takes the next counter of its page and one without takes none; a new page begins at the number stored, and leaves it a million higher if that can be written |
| Requests.RetryStartsAfresh | web/src/lib/session.ts:244-246 | a retry goes out with a new envelope on the block that site data offer, which has opened nothing, so its answer ends the request if the page opens nothing else meanwhile |
| Requests.OutrunsExactlyWhen | internal/pairing/session.go:67-95 | of two replies of one run of the server, the one opened first outruns the other exactly when it was given later; across a restart an earlier one can |
| Requests.WithoutRestart | web/src/lib/session.ts:239-292 | without a restart the server acts twice exactly when a reply that was given later was opened before the request's own, and the retry got through |
| Requests.RestartActsTwice | internal/pairing/session.go:67-95 | after a restart the first request of every page that opened a reply before is acted on twice, whatever happened until then |
| Requests.OverlapActsTwice | web/src/lib/session.ts:250-286 | without a restart, of two requests that overlap on one page the first is acted on twice when its reply comes second, whatever happened before |
| Requests.OverlapFromTheStart | web/src/lib/session.ts:250-286 | a run of eleven events from a new device, without a restart, in which a request is acted on twice |
| Requests.RestartFromTheStart | internal/pairing/session.go:67-95 | a run of twelve events from a new device in which a request after a restart is acted on twice |
| Requests.Server.Check | internal/pairing/envelope.go:160-179 | the server's check and what it remembers |
| Requests.Server.Seal | internal/pairing/envelope.go:127-144 | replies are numbered from one |
| Requests.Server.Restart | internal/pairing/session.go:67-95 | a rebuilt envelope starts both counters again |
| Requests.Session.constructor | web/src/lib/session.ts:86-93 | a page starts with an envelope on a block of its own |
| Requests.Session.Seal | web/src/lib/session.ts:256-259 | only a request with a body takes a counter |
| Requests.Session.Open | web/src/crypto/envelope.ts:128-158 | a reply at or below the highest one opened is a replay |
| Requests.Session.Retry | web/src/lib/session.ts:244-246 | the retry is sealed with a new envelope on a fresh block, which has opened nothing |
| Identifier.EncodeId | internal/store/id.go:51-63 | the loop over two 64-bit halves writes the 26 base-32 digits of the 128-bit number |
| Identifier.ShiftAcrossHalves | internal/store/id.go:57-60 | one iteration divides the 128-bit number by 32 and loses no bit |
| Identifier.EncodedIsValid | internal/store/id.go:51-80 | every encoding validates and gives its digits back |
| Identifier.EncodingKeepsOrder | internal/store/id.go:51-63 | encodings are equal exactly when the bytes are, and sort exactly as the bytes do |
| Identifier.Validate | internal/store/id.go:70-80 | the loop accepts exactly 26 characters of the alphabet |
| Identifier.ValidIsEncodedIff | internal/store/id.go:70-92 | a valid string encodes some bytes exactly when its first digit is below 8 |
| Identifier.Time | internal/store/id.go:83-96 | a time is returned exactly for valid strings, and it is the number of the first ten digits |
| Identifier.TimeIsRecovered | internal/store/id.go:83-96 | the first six bytes come back from the first ten characters, whatever the random part |
| Identifier.NewId | internal/store/id.go:30-48 | a new identifier is valid and carries the clock's milliseconds modulo 2^48 |
| Identifier.LaterSortsLater | internal/store/id.go:18-19 | an identifier made in a later millisecond sorts later, whatever was drawn |
| Platform.SanitizeName | internal/platform/platform.go:79-118 | the character loop and the rules after it compute the sanitized name, and report a change exactly when there is one |
| Platform.SanitizeIsSafe | internal/platform/platform.go:73-118 | whatever arrives, the result has no separator, control or forbidden character, is never empty, "." or "..", and fits the byte limit |
| Platform.UnchangedExactlyWhenLegal | internal/platform/platform.go:73-118 | a name is kept exactly when it is legal at the destination, under both rule sets |
| Platform.SanitizedIsLegalUnlessCut | internal/platform/platform.go:99-118 | unless the name had to be cut, the result is legal and a second pass keeps it |
| Platform.BothRuleSetsAreUsable | internal/platform/platform.go:44-67 | both rule sets accept the characters the program adds, and reserve no name that starts with the escape |
| Platform.RulesAre | internal/platform/platform.go:44-67 | the two rule sets written out: which characters are refused, which names are reserved, the limit and the rule on endings |
| Platform.WidthIsUtf8 | internal/platform/platform.go:141-162 | a character counts for the fewest bytes whose UTF-8 payload holds its number |
| Platform.TailIsTrimmed | internal/platform/platform.go:99-101 | trailing dots and spaces go, all of them and nothing else |
| Platform.ReservedWhateverFollows | internal/platform/platform.go:122-137 | a base name ends before the first dot that does not begin the name, so a reserved name is reserved whatever extension follows |
| Platform.SpacesAroundAreIgnored | internal/platform/platform.go:122-137 | spaces around a base name do not hide a reserved name |
| Platform.Truncate | internal/platform/platform.go:141-162 | the loop keeps the longest prefix of the stem that fits beside the extension |
| Platform.TruncateFits | internal/platform/platform.go:141-162 | the result keeps to the limit |
| Platform.CheckReserved | internal/platform/platform.go:122-137 | the loop finds a reserved base name exactly when there is one |
| Platform.AlternativesDiffer | internal/platform/platform.go:175-194 | two numbered alternatives of a name are never the same file, under either case rule |
| Platform.AlternativeKeepsExtension | internal/platform/platform.go:173-185 | an alternative puts its number between the stem and the extension, and has the extension of the name |
| Platform.TruncationKeepsExtension | internal/platform/platform.go:139-162 | cutting keeps an extension of at most 16 bytes whenever the limit leaves room for one character more |
| Platform.LongExtensionIsCut | internal/platform/platform.go:141-162 | an extension of more than 16 bytes is cut like the rest of the name |
| Platform.AlternativeIsSafe | internal/platform/platform.go:175-185 | an alternative of a safe name is safe, and is longer by its number, two brackets and a space |
| Naming.WithinMeansBelow | internal/transfer/naming.go:162-168 | the escape check holds exactly for paths at or below the root |
| Naming.OnlyDotsEscape | internal/transfer/naming.go:162-168 | of all components joined to the root only ".." leaves it, and the check sees exactly that |
| Naming.ComponentsAreSafe | internal/transfer/naming.go:101-129 | every directory component a sender can cause is safe |
| Naming.FieldsAreTheParts | internal/transfer/naming.go:101-129 | the laws that determine the parts of every relative path: separators of either kind, in any number, stand between, before and after them |
| Naming.DotsAreDropped | internal/transfer/naming.go:101-129 | parts that are "." or ".." add no component, wherever they stand |
| Naming.PartsAreCleaned | internal/transfer/naming.go:101-129 | all other parts are the components, in their order and each cleaned |
| Naming.ResolveDirectory | internal/transfer/naming.go:101-129 | the loop never fails its check: the directory is the root extended by the cleaned components, and a change is reported exactly when there was one |
| Naming.IsTaken | internal/transfer/naming.go:152-159 | the loop finds a clash under the destination's case rule exactly when there is one |
| Naming.SomeAttemptIsFree | internal/transfer/naming.go:67-77 | with fewer existing names than attempts one alternative is free |
| Naming.Resolve | internal/transfer/naming.go:47-94 | the result is strictly below the root under the first free alternative, with all changes reported; under the Linux rules the stored name is none of the existing ones, under the Windows rules it differs from each in length or in a letter, case aside, and the cleaned name is kept exactly when it is free in that sense; the escape check is unreachable; it fails exactly when the directory cannot be read or all 1000 alternatives are taken, so never below 1000 names |
| Naming.PlacementIsBelow | internal/transfer/naming.go:86-91 | every alternative joined to every cleaned directory passes the escape check |
| Naming.PlacedNameFitsExactlyWhen | internal/transfer/naming.go:60-84 | in a given directory the placed name keeps to the byte limit exactly when one of the first alternatives is free: as many as add no more bytes than the cleaned name leaves over |
| Naming.AlwaysFitsExactlyWhen | internal/transfer/naming.go:60-84 | over all directories with fewer than 1000 names the placed name always keeps to the limit exactly when the cleaned name leaves seven bytes over |
| Naming.FullNameOverflows | internal/transfer/naming.go:60-84 | under the Linux rules a name of 255 bytes that is already there is placed under one of 259 |
| Naming.FullNamesExist | internal/transfer/naming.go:60-84 | there are such names and such placements |

## Left out

- Hashes, HMAC, the cipher and ristretto255: their insides; a digest is the term that names its input, an opened box is one that was sealed, an element is a number modulo a prime with one accepted encoding.
- Crashes inside a service call: each call, with its load of the record, is one step; several of them use more than one store transaction.
- Store failures: reads and writes of the store succeed; `Put` fails only on records that do not validate.
- A relayed file that is missing when its target asks for it, and failures to seek in it: the answer is an error and nothing changes.
- Incoming.Computer.Receive: the checks before a chunk is taken, the start of the transfer and what each kind of fault does to it are in Transfers.Receive and Transfers.Take.
- Incoming.Computer.CommitItem: which destination is found is Naming.Resolve; here it is an argument whether there is one.
- Records.Store.PutTransfer: the checks on the identifier, on empty item names and on the relay device, which the record of the model does not hold.
- Resume.EveryRunIsExact: sources of 2^63 bytes or more, which no browser has; Staging.HugeRemainderTakesNothing says what happens to them.
- Sender.SendItem: sources of 2^63 bytes or more, as above; a retry of the last request inside the session is a completion by somebody else before it.
- Retry.WithResume: sources of 2^63 bytes or more, as above.
- Pipe.Pipes.Close: filling `done` and closing `ready` are one step. The guard runs once and `done` is then empty, so a supplier or receiver that acts between the two sees what it would see just before or just after.
- Pipe keys: the map is keyed by the pair of transfer and item; the printed key "id#index" is injective because an index has no '#'.
- The `OnDemand` callback, server-sent events and notifications.
- Envelopes across restarts: the claims are for one pair of envelopes; the server restarts its own counter at zero when it rebuilds one.
- Requests: the counters alone; what the envelopes seal and open is in Envelope. Requests that never get an answer, and answers that are errors other than a replay, end a request without a retry.
- Counters above 2^64 in Counters and Requests: the wrap is treated in Envelope.BrowserReusesNonceIff.
- JavaScript's 32-bit shift in `prependLen` for inputs of 2^31 bytes or more.
- Sampling of secrets and identifiers: they are arguments; a repeated handshake identifier replaces the older exchange, as in the program.
- Pairing-code attempts, trust modes, certificates, device records, tickets, QR codes and mDNS.
- Relay sessions and expired pairings in internal/store/sweep.go:181-239, and the filters of the history listing.
- Stored names, checksums and peer names inside records and history entries, and the call that only writes a checksum (internal/httpapi/transfer_complete.go:63-69).
- Transfers of queued or interrupted state whose last item completes: the table refuses the move, so no claim is made that they end.
- Windows names that had to be cut: Platform.SanitizedIsLegalUnlessCut stops where truncation, which runs after the rules on endings and reserved names, can undo them.
- Names that are not valid UTF-8, the Unicode tables themselves, and real path syntax: a name is a sequence of characters, a path a list of components.
- Rates, progress throttling and free-space queries.
- HTTP routing, JSON, base64, the interface, tray, accessibility and translations.
