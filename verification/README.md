# Verified model of sentry-rust

A Dafny model of the parts of the Sentry SDK for Rust that carry state or a wire format, with proofs of what they
promise. `dafny verify dfyconfig.toml` checks the whole project.

## What is modelled

**Envelopes** (`Utf8`, `Json`, `JsonStrings`, `JsonNumbers`, `JsonSpellings`, `JsonPrinting`, `ItemHeader`,
`HeaderFields`, `Envelope`, `EnvelopeText`, `EnvelopeParser`, `EnvelopeRoundTrip`, `EnvelopeFilter`). The writer and the
parser work on bytes. Item headers are printed and read concretely: `Json` scans and prints as `serde_json` does, and the
modules beside it give the grammar of RFC 8259 as trees of spellings, with escapes, white space and UTF-8 (RFC 3629),
and prove that the scanner reads exactly what these trees spell. The payloads of events, sessions, logs,
metrics and the envelope's own header line are an opaque codec that prints a line without a newline and reads it back
(`Faithful`). The parser's machine arithmetic (checked and saturating additions on `usize`) is explicit.

**Sessions and batching** (`Sessions`, `SessionFlusher`, `Batcher`, `BatcherProtocol`, `ClientClose`, `TransportSlot`,
`ClientReports`, `EventPipeline`, `Sampling`). Classes do what one thread does, call by call; `BatcherProtocol` is the protocol of
queue mutex, flag mutex, condition variable, worker and drop as interleaved steps with batches in flight, and
`ClientClose` puts any number of such queues, closers and direct senders in front of one transport slot.

**Transactions** (`Transactions`, `TransactionProtocol`, `SpanTree`, `Continuation`). Classes for the shared state,
interleaved finishes, the tree of spans seen by ids, and how an incoming trace is continued, rejected and sampled.

**Hubs and scopes** (`Breadcrumbs`, `Scopes`, `ScopeContents`, `ScopeIsolation`, `ScopeGuards`, `SpanGuards`, `SpanGuardNesting`).
`Scopes.Process` holds layers that point to scopes that point to shared sections, and copies only what something else
can still reach, at both levels; `Scopes.Step` is the same operations on plain values, and every method is proved to
do what `Step` says. What callers may rely on is then proved about runs of `Step` (`ScopeIsolation`) and about what any
changes leave in a scope (`ScopeContents`).

**Trace headers** (`Text`, `Hex`, `TraceHeaders`, `Propagation`), **stack frames** (`FunctionNames`, `Frames`) and
**crontab schedules** (`Crontab`).

Clocks, random ids, sampling draws and user callbacks are inputs of each step. Threads are interleaved steps; each step
is one critical section or one hand-over. Rates and draws are real numbers.

## Where the code does something a reader may not expect

- A transaction keeps one span more than `MAX_SPANS`, and a span that finishes after its transaction was taken leaves
  no trace, not even a recorded loss (`OpenTransactionAccountsForEverySpan`, `LateSpanVanishes`).
- A filtered envelope has new headers: an event id at most; the DSN, the SDK, the time and the trace are gone
  (`Envelope.Filter`).
- One newline too many at the end of an envelope is an error, although a missing one is tolerated
  (`BlankLineAtTheEndIsRejected`).
- An over-long breadcrumb trail is trimmed by the next breadcrumb offered, even a rejected one, but not by a call that
  offers none (`TrailIsTheLastAcceptedIff`).
- Spans exited out of order can leave a forked hub current for good (`NotNestedLeavesAFork`,
  `ExitIsRightIffNothingSwitchedSince`).
- After one scope guard was dropped out of order, dropping the newest guard can panic as well
  (`NewestCanPanicLater`).
- A child span that is given an id from above it makes the parent chain a cycle (`ReusedIdIsACycle`,
  `CycleIffIdFromAbove`).
- An inherited sampling decision does not bind a sampler function, and disabled sampling overrides a positive one
  (`InheritedDecisionWins`).

## Model

| member | source | states |
|---|---|---|
| `JsonPrinting.ScanPrintedString` | sentry-types/src/protocol/attachment.rs:81-107 | a printed JSON string, whatever bytes of UTF-8 it holds, is read back, and what follows it is left |
| `JsonPrinting.ScanPrinted` | sentry-types/src/protocol/envelope.rs:757-767 | every printable JSON value is read back from its print, followed by anything that does not extend a number |
| `JsonSpellings.ReadIffSpelled` | sentry-types/src/protocol/envelope.rs:757-767 | the scanner reads a value and leaves a rest exactly when the text is some spelling of that value in the grammar of RFC 8259, in front of that rest |
| `JsonStrings.ScanSpelledString` | sentry-types/src/protocol/envelope.rs:757-767 | however a string is spelled, plainly, by short escapes, by numbers or by pairs of them, the scanner reads the bytes it stands for |
| `JsonStrings.EscapedReadsAsPlain` | sentry-types/src/protocol/envelope.rs:757-767 | a character escaped by its number, or by a surrogate pair, reads as the UTF-8 bytes it would be written with plainly |
| `JsonStrings.LoneSurrogateIsNotUtf8` | sentry-types/src/protocol/envelope.rs:757-767 | text with the escape of a surrogate that has no partner is never UTF-8, so no typed field takes it |
| `JsonNumbers.NumberIsSpelled` | sentry-types/src/protocol/envelope.rs:757-767 | every number the scanner takes is one of the grammar, taken whole |
| `Utf8.EncodedHoldsPoint` | sentry-types/src/protocol/envelope.rs:757-767 | the bytes of a code point hold it in their free bits, as the layout of RFC 3629 says |
| `Utf8.Utf8IffScalars` | sentry-types/src/protocol/envelope.rs:757-767 | bytes are UTF-8 exactly when they are the encodings of some scalar values, one after the other |
| `Utf8.SurrogateIsNeverUtf8` | sentry-types/src/protocol/envelope.rs:757-767 | the bytes of a surrogate make any text they stand in invalid |
| `ItemHeader.RespelledChangesOnlyKnownNames` | sentry-types/src/protocol/attachment.rs:7-45 | spelling out an attachment type and reading it changes it exactly when it is a custom type that spells a known name, and never its spelling |
| `ItemHeader.DecodeSizedLine` | sentry-types/src/protocol/envelope.rs:653-660 | the header line of a sized item is decoded to its type and length |
| `ItemHeader.DecodeContainerLine` | sentry-types/src/protocol/envelope.rs:645-652 | the header line of a container is decoded to its type and content type, and to no length |
| `ItemHeader.DecodeAttachmentLine` | sentry-types/src/protocol/attachment.rs:81-107 | the header line of an attachment is decoded to all its fields, for any file name, type and content type in UTF-8 |
| `HeaderFields.UnknownFieldSkipped` | sentry-types/src/protocol/envelope.rs:141-151 | a member of a header object that is no field changes nothing |
| `HeaderFields.OrderDoesNotMatter` | sentry-types/src/protocol/envelope.rs:141-151 | members of a header object with different keys can change places |
| `HeaderFields.RepeatedFieldRefused` | sentry-types/src/protocol/envelope.rs:141-151 | a header that gives a field twice is refused |
| `HeaderFields.TypeIsRequired` | sentry-types/src/protocol/envelope.rs:141-151 | a header without a type is refused |
| `HeaderFields.TypeIffNamed` | sentry-types/src/protocol/envelope.rs:107-139 | a type is read exactly from its name, or from an object that maps its name to null |
| `HeaderFields.LengthIffPrinted` | sentry-types/src/protocol/envelope.rs:141-151 | of all spellings of numbers exactly the prints of what a `usize` holds are lengths |
| `EnvelopeText.DocumentText` | sentry-types/src/protocol/envelope.rs:600-664 | the exact text of each kind of document: its fields, their names, order and values, a newline, its text, a newline |
| `EnvelopeText.AttachmentText` | sentry-types/src/protocol/attachment.rs:81-107 | the exact text of an attachment, a standard one of unknown bytes unless it says otherwise, its buffer as it is |
| `Envelopes.AddedAllKeepsOrder` | sentry-types/src/protocol/envelope.rs:451-474 | adding items one by one keeps all of them in order and takes the event id of the first event or transaction when none was set |
| `Envelopes.FirstEventIdIsFirstCarried` | sentry-types/src/protocol/envelope.rs:451-474 | the id taken over is that of the first event or transaction, and there is none exactly when there is no such item |
| `Envelopes.Envelope.AddItem` | sentry-types/src/protocol/envelope.rs:451-474 | a list of items grows by this one and an absent event id is taken from it; an envelope of raw bytes takes nothing |
| `Envelopes.Envelope.WriteAttachment` | sentry-types/src/protocol/attachment.rs:81-107 | appends the header line with the actual length, then the buffer |
| `Envelopes.Envelope.WriteItem` | sentry-types/src/protocol/envelope.rs:600-664 | appends exactly the written form of the item and hands back the emptied buffer |
| `Envelopes.Envelope.ToWriter` | sentry-types/src/protocol/envelope.rs:585-667 | writes the written form of the whole envelope: raw bytes as they are, or the header line and every item |
| `Envelopes.RemoveAttachments` | sentry-types/src/protocol/envelope.rs:559-573 | the second pass reports every attachment in order and keeps the rest |
| `Envelopes.Envelope.Filter` | sentry-types/src/protocol/envelope.rs:535-580 | keeps, reports and threads the filter's state exactly as two passes do; nothing is returned exactly when nothing is kept |
| `EnvelopeFiltering.KeptAreThoseThatStay` | sentry-types/src/protocol/envelope.rs:535-580 | the kept items are exactly those the filter let stay, minus attachments when no event or transaction stays |
| `EnvelopeFiltering.FilterConserves` | sentry-types/src/protocol/envelope.rs:397-407 | kept and reported items together are the input as a multiset, and the kept ones are an in-order subsequence |
| `EnvelopeFiltering.FilterCallsBack` | sentry-types/src/protocol/envelope.rs:535-580 | the filter is asked about every item in order, told of each it rejects right away and of each orphaned attachment at the end; its state is what these calls make it, and what it is told is what is reported |
| `EnvelopeFiltering.LogHoldsWhatWasRemoved` | sentry-types/src/protocol/envelope.rs:404-409 | a filter that writes down what it is told ends up with exactly the removed items, in order |
| `EnvelopeFiltering.AttachmentsNeedAnEvent` | sentry-types/src/protocol/envelope.rs:553-572 | an attachment survives only beside an event or transaction, whose id the result then has |
| `EnvelopeParser.ParseHeaders` | sentry-types/src/protocol/envelope.rs:709-728 | accepted headers end at an offset from 1 to the length plus one |
| `EnvelopeParser.PayloadStart` | sentry-types/src/protocol/envelope.rs:774-776 | the payload starts behind the newline, or at the end of the slice |
| `EnvelopeParser.PayloadEnd` | sentry-types/src/protocol/envelope.rs:777-800 | an accepted payload range lies within the slice |
| `EnvelopeParser.DeclaredLengthIsExact` | sentry-types/src/protocol/envelope.rs:778-791 | a declared length is honoured exactly; saturation lets none through that is too long |
| `EnvelopeParser.ImplicitLengthIsTheLine` | sentry-types/src/protocol/envelope.rs:792-798 | without a length the payload is the rest of its line |
| `EnvelopeParser.ParseItem` | sentry-types/src/protocol/envelope.rs:757-843 | an accepted item is followed by an offset from 1 to the length plus one, for every byte slice |
| `EnvelopeParser.AcceptedItemLayout` | sentry-types/src/protocol/envelope.rs:757-851 | an accepted item is a header, a newline, a payload and a newline, the last one optional at the end only, and holds what its header and payload say |
| `EnvelopeParser.RefusedItem` | sentry-types/src/protocol/envelope.rs:757-851 | for each error, what was wrong with the item: an unreadable header, a missing newline, a length past the end, an unreadable payload |
| `EnvelopeParser.HeadersAreTheFirstLine` | sentry-types/src/protocol/envelope.rs:709-728 | the headers are read from the first line and the items begin behind its newline |
| `EnvelopeParser.ParseItems` | sentry-types/src/protocol/envelope.rs:730-755 | the loop finds the items from its offset on, never leaves the slice and ends |
| `EnvelopeParser.FromSlice` | sentry-types/src/protocol/envelope.rs:670-684 | the envelope read from a slice, or the first error |
| `EnvelopeRoundTrip.ParseWrittenItem` | sentry-types/src/protocol/envelope.rs:585-667 | any written item is parsed back, newlines in attachments included, and parsing goes on right behind it |
| `EnvelopeRoundTrip.RoundTrip` | sentry-types/src/protocol/envelope.rs:585-684 | parsing what was written, with or without its last newline, gives the same items in order; only attachment defaults are filled in, known names recognised and an absent event id taken over |
| `EnvelopeRoundTrip.PrintsTheSame` | sentry-types/src/protocol/envelope.rs:585-684 | what comes back is written as the same bytes exactly when no event id had to be taken over |
| `EnvelopeRoundTrip.BlankLineAtTheEndIsRejected` | sentry-types/src/protocol/envelope.rs:730-767 | one more newline after a written envelope is an unexpected end |
| `EnvelopeRoundTrip.AcceptedInputSettles` | sentry-types/src/protocol/envelope.rs:670-684 | for any accepted bytes, writing and parsing again changes attachment defaults only, and from then on nothing |
| `Batching.Batcher.FlushQueueInternal` | sentry-core/src/client/batcher.rs:133-150 | the queue becomes one batch, or nothing happens when it is empty |
| `Batching.Batcher.Enqueue` | sentry-core/src/client/batcher.rs:115-122 | the item is queued, and the queue sent when it is full |
| `Batching.BatchesAreBlocks` | sentry-core/src/client/batcher.rs:111-150 | over all calls fewer than 100 items rest in the queue, every batch has 1 to 100, and batches then queue are the enqueue order |
| `Batching.FullBatchesOnly` | sentry-core/src/client/batcher.rs:115-122 | without flushes every batch has exactly 100 items |
| `Batching.FlushSendsAll` | sentry-core/src/client/batcher.rs:124-128 | after a flush nothing is queued and everything enqueued is in a batch |
| `BatcherProtocol.StepKeepsInv` | sentry-core/src/client/batcher.rs:66-163 | every step of every thread keeps order, bounds, each batch sent once or held once, and the flag, worker and dropper in step |
| `BatcherProtocol.NoLostWakeup` | sentry-core/src/client/batcher.rs:73-108 | in every run, a worker asleep with the flag set has a notification coming; queue and batches stay within bounds and order |
| `BatcherProtocol.PeriodicFlush` | sentry-core/src/client/batcher.rs:87-98 | in every run, once the worker wakes with its interval over and no shutdown, all that was enqueued before has been taken by the time it waits again, and sent unless a calling thread took it |
| `BatcherProtocol.WorkerTakesOnlyWhenElapsed` | sentry-core/src/client/batcher.rs:87-98 | in every run, each take of the worker has a look of its own that found the interval over; waking early takes nothing |
| `BatcherProtocol.EnqueueTakesFullQueue` | sentry-core/src/client/batcher.rs:115-122 | enqueuing takes the queue exactly when the entry makes it full, for the thread that enqueued, and leaves it otherwise |
| `BatcherProtocol.FlushTakesAll` | sentry-core/src/client/batcher.rs:124-128 | a caller's flush takes everything enqueued so far |
| `BatcherProtocol.HeldUntilSent` | sentry-core/src/client/batcher.rs:133-150 | whoever took a batch holds it until it is sent, in every run |
| `BatcherProtocol.FlushSends` | sentry-core/src/client/batcher.rs:124-150 | when the thread that flushed has nothing in flight any more, what was queued is sent |
| `BatcherProtocol.Conservation` | sentry-core/src/client/batcher.rs:111-163 | queued, in flight and sent entries are the enqueued ones, as multisets, in every run |
| `BatcherProtocol.DropSendsEverythingOnce` | sentry-core/src/client/batcher.rs:153-163 | when the drop returns, the queue is empty, nothing is in flight and every batch was sent exactly once |
| `BatcherProtocol.RunsEndAfterFlag` | sentry-core/src/client/batcher.rs:73-163 | once the flag is set at most eight more steps fit into any run |
| `BatcherProtocol.DropNeverStuck` | sentry-core/src/client/batcher.rs:153-163 | until the drop returns, some step other than a chance wake-up is possible |
| `SessionFlushing.SessionFlusher.SendUpdates` | sentry-core/src/session.rs:328-348 | the loop sends the queue as its chunks, in order |
| `SessionFlushing.SessionFlusher.FlushQueueInternal` | sentry-core/src/session.rs:313-348 | sends the aggregate report and the chunked queue and leaves nothing pending |
| `SessionFlushing.SessionFlusher.Enqueue` | sentry-core/src/session.rs:252-301 | counts an initial update in request mode into its bucket, queues any other, and sends a full queue |
| `SessionFlushing.ChunksSplitTheQueue` | sentry-core/src/session.rs:328-348 | chunks put together are the queue; all but the last have 100 updates, the last has 1 to 100 |
| `SessionFlushing.FlushMovesEverything` | sentry-core/src/session.rs:313-348 | a flush moves the pending counts of every bucket, and every queued update, to what was sent |
| `SessionFlushing.Accounting` | sentry-core/src/session.rs:252-348 | over all calls and for every minute and distinct id, each of the four pending plus reported counts is the number of initial updates of its class enqueued in request mode, and other updates are sent or queued in order |
| `SessionFlushing.KeyIsTheMinute` | sentry-core/src/session.rs:267-279 | a session goes into a bucket exactly when the bucket is a whole minute that holds its start and has its distinct id |
| `SessionFlushing.ReportNamesFirst` | sentry-core/src/session.rs:262-265 | a report has the attributes of the counted session that began it |
| `SessionFlushing.FullChunksOnly` | sentry-core/src/session.rs:252-260 | as long as nobody asks for a flush, updates are sent exactly a hundred at a time |
| `Sessions.Session.UpdateFromEvent` | sentry-core/src/session.rs:84-109 | the loop over exceptions with its early exit counts the event once and finds a crash exactly when some exception was not handled |
| `Sessions.Session.Close` | sentry-core/src/session.rs:111-121 | an open session takes the status, or `Exited` for `Ok`; a finished one keeps its own |
| `Sessions.Session.CreateEnvelopeItem` | sentry-core/src/session.rs:123-131 | hands out the update if anything changed, after which it is neither initial nor dirty |
| `Sessions.Session.Drop` | sentry-core/src/session.rs:38-45 | closes the session and hands out what changed |
| `Sessions.CallsKeepLife` | sentry-core/src/session.rs:84-131 | what the updates sent so far and the session's state say about each other after any calls |
| `Sessions.EventClasses` | sentry-core/src/session.rs:84-109 | an event is an error from level error on or when it has an exception, and a crash exactly when some exception says it was not handled |
| `Sessions.CallsKeepSession` | sentry-core/src/session.rs:48-131 | every update of a life is about the session that was started |
| `Sessions.LifeEndsOnce` | sentry-core/src/session.rs:38-131 | every life sends one final status, last; only its first update is initial; errors never go down and end at the error events seen while open; all updates are about one session, and the last is of exactly one class |
| `ClientClose.StepKeepsInv` | sentry-core/src/client/mod.rs:536-545 | every step of queues, closers and senders keeps what was delivered equal to what the queues sent, and each queue dropped by one closer under its lock |
| `ClientClose.CloseLosesNothing` | sentry-core/src/client/mod.rs:511-545 | when the transport is gone, every entry a queue ever accepted reached it, in order and exactly once, for any number of closers |
| `ClientClose.ClosedForGood` | sentry-core/src/client/envelope_sender.rs:209-218 | an emptied slot stays empty and nothing passes it |
| `ClientClose.OpenUntilShutdown` | sentry-core/src/client/envelope_sender.rs:181-198 | until the shutdown every envelope sent directly reaches the transport |
| `ClientClose.DirectAccounted` | sentry-core/src/client/envelope_sender.rs:181-198 | the envelopes sent directly are, in order, those that reached the transport and then those that found it gone |
| `ClientClose.ReturnedMeansClosed` | sentry-core/src/client/mod.rs:536-545 | when a closing call has returned the transport is gone |
| `ClientClose.CloseNeverStuck` | sentry-core/src/client/mod.rs:536-545 | until a closing call returns, it or a call it waits for can take a step |
| `TransportSlots.TransportSlot.CloneIntoNewSlot` | sentry-core/src/client/envelope_sender.rs:165-178 | a new slot around the same transport; an empty slot is shared |
| `TransportSlots.TransportSlot.Shutdown` | sentry-core/src/client/envelope_sender.rs:209-218 | the slot is empty afterwards and its transport was told, having received nothing more |
| `TransportSlots.SendEnvelopeWith` | sentry-core/src/client/envelope_sender.rs:46-66 | pending losses go out with the next envelope that really goes out, and stay pending otherwise |
| `TransportSlots.CloseOneOfTwoClients` | sentry-core/src/client/mod.rs:106-146 | closing a client silences its own sender only; a client cloned before still reaches the transport |
| `ClientReports.NoLossIsStranded` | sentry-core/src/client/client_reports/inner.rs:20-62 | in every interleaving a loss is pending or reported, once, and with no thread in the middle pending losses have the flag up |
| `ClientReports.SweepTakesWhatCameBefore` | sentry-core/src/client/client_reports/inner.rs:41-62 | a thread that lowers the flag has every loss recorded before in a report when its sweep ends, whatever others do meanwhile |
| `ClientReports.ReportIsExact` | sentry-core/src/client/client_reports/inner.rs:45-86 | a report names a category, a reason and a quantity exactly when the counter of this pair holds the quantity and not zero: counters are found where the iteration over pairs puts them |
| `EventPipeline.RunProcessors` | sentry-core/src/client/mod.rs:358-368 | the loop goes through the processors until one drops the event |
| `EventPipeline.ApplyToEvent` | sentry-core/src/scope/real.rs:279-336 | fills the event in from the scope and runs its processors |
| `EventPipeline.ScopeFillsIn` | sentry-core/src/scope/real.rs:279-336 | field by field what a scope gives an event: its level and keys win, user, transaction, fingerprint and trace context go to events without their own, breadcrumbs come after, and nothing else changes |
| `EventPipeline.IdAndSdkFirst` | sentry-core/src/client/mod.rs:337-346 | an id and the name of the SDK are given to events without them |
| `EventPipeline.OptionsFillIn` | sentry-core/src/client/mod.rs:370-381 | release, environment and server name are given to events without them, and platform `other` becomes `native` |
| `EventPipeline.OfferedIsTheChain` | sentry-core/src/client/mod.rs:332-395 | the stages are one list: the scope's processors, the integrations, the defaults, the callback; an event is lost to the callback exactly when the list without it lets the event through |
| `EventPipeline.SampledLast` | sentry-core/src/client/mod.rs:396-407 | sampling comes last, drops an event exactly when the draw is not below the rate, and changes nothing |
| `EventPipeline.EnvelopeHolds` | sentry-core/src/client/mod.rs:442-475 | the event is first in its envelope, then the session's update, the attachments in order, and last the losses |
| `Sampling.SentIffDrawnBelow` | sentry-core/src/client/mod.rs:547-557 | of the draws from 0 up to 1 exactly those below the rate say yes |
| `EventPipeline.ThroughInParts` | sentry-core/src/scope/real.rs:324-333 | processors compose: a list is its first part and then its rest |
| `EventPipeline.Client.PrepareEvent` | sentry-core/src/client/mod.rs:332-407 | either the event comes out or exactly one loss with the reason of the first stage that refused it; the session is updated exactly when only sampling could still drop the event, sampled or not |
| `EventPipeline.Client.CaptureEvent` | sentry-core/src/client/mod.rs:442-475 | the envelope is the event, the session's update in application mode, the attachments and the losses pending, and the session keeps what was not handed out; without a transport nothing runs at all |
| `EventPipeline.CaptureAll` | sentry-core/src/client/mod.rs:442-497 | of any events captured each is sent or is one loss, reported or pending |
| `Transactions.TransactionInner.Finish` | sentry-core/src/performance/mod.rs:941-988 | taken once: sent with its spans if sampled, otherwise recorded as lost with all its spans and itself; a second finish does nothing |
| `Transactions.Span.Finish` | sentry-core/src/performance/mod.rs:1225-1242 | marks the span once and stores it with an open transaction or records one loss when that is full |
| `Transactions.TransactionInner.StartChild` | sentry-core/src/performance/mod.rs:1002-1020 | a child in the transaction's trace with its sampling decision and it as the parent |
| `Transactions.Span.StartChild` | sentry-core/src/performance/mod.rs:1256-1274 | a child in the span's trace with its sampling decision and it as the parent |
| `TransactionProtocol.StepKeepsAccount` | sentry-core/src/performance/mod.rs:941-988 | every step keeps the transaction in exactly one place and its spans and losses adding up |
| `TransactionProtocol.SentOrLostAtMostOnce` | sentry-core/src/performance/mod.rs:941-988 | over all interleavings a transaction is open, being sent, sent or recorded as lost, exactly one of these |
| `TransactionProtocol.OpenTransactionAccountsForEverySpan` | sentry-core/src/performance/mod.rs:1225-1242 | while open it holds the first spans to finish, at most `MAX_SPANS` plus one, each once, and all later ones are recorded losses |
| `TransactionProtocol.SentSpansAreTheFirstFinished` | sentry-core/src/performance/mod.rs:955-985 | the one envelope carries the first spans finished before the transaction, and the others were recorded as lost |
| `TransactionProtocol.UnsampledIsLostWhole` | sentry-core/src/performance/mod.rs:945-953 | an unsampled transaction ends as one lost transaction and one lost span for itself and every span finished before it |
| `TransactionProtocol.LateSpanVanishes` | sentry-core/src/performance/mod.rs:1233-1240 | a span delivered after the transaction was taken changes nothing but its own mark |
| `TransactionProtocol.FinishedSpanIsCounted` | sentry-core/src/performance/mod.rs:1225-1242 | a new span that finishes while its transaction is open is kept, or recorded as lost when the transaction is full |
| `TransactionProtocol.FinishedTransactionIsGone` | sentry-core/src/performance/mod.rs:941-988 | finishing an open transaction sends it with its spans if it is sampled, and records it as lost at once if it is not |
| `SpanTree.TreeSharesTrace` | sentry-core/src/performance/mod.rs:1002-1052 | every span reachable by `start_child` has the transaction's trace id and sampling decision |
| `SpanTree.ReachesTheRoot` | sentry-core/src/performance/mod.rs:1256-1306 | from every span a walk along parent ids reaches the transaction |
| `SpanTree.NoCycle` | sentry-core/src/performance/mod.rs:1256-1306 | with fresh ids every such walk goes to strictly earlier nodes, so it is no longer than the tree and meets no node twice |
| `SpanTree.WalksEndAtTheRoot` | sentry-core/src/performance/mod.rs:1256-1306 | and a walk that is not at the transaction can always go on |
| `SpanTree.CycleIffIdFromAbove` | sentry-core/src/performance/mod.rs:1026-1052 | one more child in a tree of fresh ids closes a cycle of parent ids exactly when it is given the id of a node above it, or the one the transaction names as its remote parent |
| `SpanTree.ReusedIdIsACycle` | sentry-core/src/performance/mod.rs:1026-1052 | a child given its parent's id is its own parent, for walks of any length |
| `Continuation.ContinueFromHeaders` | sentry-core/src/performance/mod.rs:178-205 | continues the trace the headers carry, or starts a new one |
| `Continuation.ContinuesUnlessForeign` | sentry-core/src/performance/mod.rs:682-692 | a trace is continued exactly when both sides agree on the organization, or one is unknown and the client is not strict |
| `Continuation.RefusedIffForeign` | sentry-core/src/performance/mod.rs:760-778 | headers are refused exactly when they carry a trace and name last an organization other than the client's own, set by hand or else by its DSN, and both are known or the client is strict |
| `Continuation.StartedFromHeaders` | sentry-core/src/performance/mod.rs:178-205 | what a transaction takes from the headers, and that its name and span id are its own |
| `Continuation.DecisionOfStrategy` | sentry-core/src/performance/mod.rs:670-702 | the decision and rate of each strategy: the inherited decision or a draw below the fixed rate, a draw below the sampler's rate, or no |
| `Continuation.WithoutClientPassesOn` | sentry-core/src/performance/mod.rs:788-794 | without a client only an inherited yes is a yes, and everything passes on |
| `Continuation.AcceptedKeepsTrace` | sentry-core/src/performance/mod.rs:760-814 | an accepted trace keeps its id, parent and, under a fixed rate, its decision for every draw |
| `Continuation.InheritedDecisionWins` | sentry-core/src/performance/mod.rs:670-702 | exactly when an inherited decision wins for every draw: a fixed rate, disabled and negative, or a sampler that agrees with certainty |
| `Continuation.RejectedStartsAnew` | sentry-core/src/performance/mod.rs:388-395 | a rejected trace starts the very transaction that would have started without headers |
| `Continuation.HopKeepsTrace` | sentry-core/src/performance/mod.rs:923-930 | the header of a transaction makes the next process continue its trace, with its span as the parent and its decision |
| `Continuation.DecisionTravels` | sentry-core/src/performance/mod.rs:760-814 | through any number of accepting processes the trace id and the first decision hold |
| `Breadcrumbs.AddBreadcrumbs` | sentry-core/src/hub.rs:245-268 | pushing and trimming per breadcrumb leaves the last accepted ones within the limit |
| `Breadcrumbs.AcceptedIsWhatPasses` | sentry-core/src/hub.rs:255-261 | without a callback every breadcrumb is accepted as it is, and with one exactly what it makes of those it lets through |
| `Breadcrumbs.TrailIsTheLastAccepted` | sentry-core/src/hub.rs:245-268 | after any calls the trail is the last `max_breadcrumbs` of everything accepted: trimming per item is trimming once |
| `Breadcrumbs.TrailIsTheLastAcceptedIff` | sentry-core/src/hub.rs:245-268 | and exactly when some breadcrumb was offered or the trail began within the limit |
| `Scopes.Process.EditSection` | sentry-core/src/scope/real.rs:229-276 | changing a section of a scope changes what no other reachable scope reads |
| `Scopes.Process.MakeScopeMut` | sentry-core/src/hub_impl.rs:226-229 | afterwards nothing else refers to the top scope, and everything reads as before |
| `Scopes.Process.CallOnOwned` | sentry-core/src/scope/real.rs:176-276 | each setter has its effect on the clone and on the shared session cells and transactions, and on no other scope |
| `Scopes.Process.PushScope` | sentry-core/src/scope/real.rs:109-112 | a saved layer with the values of the top one |
| `Scopes.Process.PopScope` | sentry-core/src/scope/real.rs:114-119 | the newest saved layer is the top again; refused when there is none |
| `Scopes.Process.NewFromTop` | sentry-core/src/hub_impl.rs:134-140 | a hub with the values of the top layer and nothing saved |
| `Scopes.Process.ConfigureScope` | sentry-core/src/hub.rs:227-237 | the caller's changes show in this hub's top layer only, and in what is shared on purpose |
| `Scopes.Process.StartSession` | sentry-core/src/hub.rs:146-158 | the session is in a cell no other scope has |
| `Scopes.Process.EndSession` | sentry-core/src/hub.rs:173-186 | the cell of the top scope is empty for all scopes that share it |
| `Scopes.Process.AddBreadcrumb` | sentry-core/src/hub.rs:245-268 | the trail of this hub's top layer changes, and of no other layer |
| `ScopeContents.LastSettingWins` | sentry-core/src/scope/real.rs:182-222 | after any changes level, fingerprint, transaction, user and span are what the last change that writes them makes them |
| `ScopeContents.LastKeyWins` | sentry-core/src/scope/real.rs:229-258 | under every key of tags, contexts and extra is what the last change that writes the key puts there, or nothing |
| `ScopeContents.ListsSinceCleared` | sentry-core/src/scope/real.rs:182-276 | processors and attachments are those added since they were last cleared, in order, and a cleared trail is empty |
| `ScopeContents.ConfiguredShows` | sentry-core/src/hub.rs:227-237 | configuring shows in the top layer and leaves its client and the saved layers |
| `ScopeContents.TopIsInherited` | sentry-core/src/hub_impl.rs:134-140 | a pushed layer, a new hub and a call in flight begin with exactly what the top layer holds |
| `ScopeContents.BreadcrumbsShow` | sentry-core/src/hub.rs:245-268 | with a client the trail is the last of what it was and what was let through, and without one it stays |
| `ScopeContents.SessionShows` | sentry-core/src/hub.rs:146-158 | a started session is in a new cell of the top scope, when a client with a release is bound |
| `ScopeContents.SessionEnds` | sentry-core/src/hub.rs:173-186 | ending a session empties its cell and no other |
| `ScopeContents.OpenTransactionRenamed` | sentry-core/src/scope/real.rs:203-216 | naming the scope's transaction names the open one of its span, and no other |
| `ScopeIsolation.PerformAll` | sentry-core/src/hub.rs:189-268 | in every run of operations the shared pointers read as if every layer had values of its own |
| `ScopeIsolation.OthersCannotChangeAHub` | sentry-core/src/hub_impl.rs:134-140 | whatever other hubs do, derived or not, a hub's top and saved layers read the same |
| `ScopeIsolation.HeldLayersAreFrozen` | sentry-core/src/hub.rs:114-122 | nothing changes the layer that a call in flight reads from |
| `ScopeIsolation.SavedLayersStay` | sentry-core/src/scope/real.rs:109-119 | layers below those pushed since stay what they were |
| `ScopeIsolation.WithScopeRestores` | sentry-core/src/hub.rs:202-218 | a balanced `with_scope` leaves the hub as it was, whatever steps are taken inside and on other hubs |
| `ScopeIsolation.OnlySharersEndASession` | sentry-core/src/hub.rs:173-186 | a session cell changes only when a hub whose top scope shares it ends the session |
| `ScopeIsolation.SessionStartedInsideIsItsOwn` | sentry-core/src/hub.rs:146-158 | a session started and ended in a pushed scope leaves the session around it alone |
| `ScopeIsolation.OnlySetTransactionRenames` | sentry-core/src/scope/real.rs:203-216 | open transactions are renamed by `set_transaction` only |
| `ScopeGuards.Stack.Pop` | sentry-core/src/scope/real.rs:114-119 | undoes a push, or panics on an empty stack and changes nothing |
| `ScopeGuards.PushScope` | sentry-core/src/hub.rs:189-196 | the guard is the depth reached |
| `ScopeGuards.DropGuard` | sentry-core/src/scope/real.rs:151-173 | pops in any case and panics afterwards exactly when the depth was not the guard's |
| `ScopeGuards.AsManyGuardsAsLayers` | sentry-core/src/scope/real.rs:109-173 | in every run, panics included, there are as many live guards as layers and no pop finds an empty stack |
| `ScopeGuards.GuardsAreTheDepths` | sentry-core/src/scope/real.rs:109-173 | until a drop out of order the live guards have depths 1 to the stack's depth |
| `ScopeGuards.NoPanicIffNewestFirst` | sentry-core/src/scope/real.rs:151-173 | a run has no panic exactly when every guard dropped is the newest live one |
| `ScopeGuards.NewestCanPanicLater` | sentry-core/src/scope/real.rs:151-173 | after one drop out of order the newest guard can panic too |
| `SpanGuards.SpanGuardStack.Push` | sentry-tracing/src/layer/span_guard_stack.rs:28-30 | one more guard on the span's stack |
| `SpanGuards.SpanGuardStack.Pop` | sentry-tracing/src/layer/span_guard_stack.rs:34-46 | the newest guard of the span comes off, no other span's stack changes, and no empty stack stays |
| `SpanGuards.Thread.Switch` | sentry-core/src/hub_impl.rs:57-70 | the hub is current, and the guard remembers the one before unless it was the same |
| `SpanGuards.Thread.SwitchBack` | sentry-core/src/hub_impl.rs:72-94 | dropping a guard makes the hub it remembers current |
| `SpanGuards.Thread.OnEnter` | sentry-tracing/src/layer/mod.rs:350-378 | a span with sentry data switches to a new fork and keeps the guard; any other does nothing |
| `SpanGuards.Thread.OnExit` | sentry-tracing/src/layer/mod.rs:381-395 | the span's newest guard is dropped |
| `SpanGuardNesting.NestedRunsRefine` | sentry-tracing/src/layer/span_guard_stack.rs:14-46 | in nested runs the map of stacks is one global stack filtered by span, and the current hub is the one that stack leaves |
| `SpanGuardNesting.BalancedRunEndsWhereItBegan` | sentry-tracing/src/layer/mod.rs:350-395 | when everything entered was exited the initial hub is current and the map is empty |
| `SpanGuardNesting.ExitRestoresTheHubBeforeEnter` | sentry-tracing/src/layer/mod.rs:380-395 | an exit restores the hub current before the matching enter |
| `SpanGuardNesting.ExitIsRightIffNothingSwitchedSince` | sentry-tracing/src/layer/mod.rs:380-395 | out of order, an exit leaves the right hub exactly when no span entered since switched it |
| `SpanGuardNesting.NotNestedLeavesAFork` | sentry-tracing/src/layer/mod.rs:380-395 | two spans exited in the order they were entered leave a fork current with no span entered |
| `SpanGuardNesting.EntersAForkOfItsOrigin` | sentry-tracing/src/layer/mod.rs:294-378 | wherever and however often it is entered, a span runs on a new fork of the hub that was current when the span began |
| `Hex.DecodesIffSpelled` | sentry-types/src/protocol/v7.rs:1400-1479 | text is read as some bytes exactly when it is their print in either case |
| `Hex.EncodeKeepsNumber` | sentry-types/src/protocol/v7.rs:1400-1479 | the print of some bytes is the same number in base 16 as they are in base 256 |
| `Text.LowerCharIsTheLetter` | sentry-core/src/performance/headers.rs:111-122 | lower-casing replaces each letter of the alphabet by its small one, and nothing else |
| `Text.ParsePrinted` | sentry-types/src/protocol/v7.rs:2429-2441 | an organization id is read back from its print, a plus sign and leading zeros allowed, and refused beyond 64 bits |
| `Text.ParsedIffSpelled` | sentry-types/src/protocol/v7.rs:2429-2441 | text is read as a number exactly when it is its print behind zeros and perhaps a plus sign, and it fits in 64 bits |
| `TraceHeaders.ReadIffSpelled` | sentry-core/src/performance/headers.rs:138-157 | a header is read as a context exactly when, trimmed, it spells its ids and an optional sampling text |
| `TraceHeaders.RoundTrip` | sentry-core/src/performance/headers.rs:84-157 | printing and parsing a context is the identity on ids and decision, in any white space |
| `Propagation.SentryBaggage.UpdateFromHeader` | sentry-core/src/performance/headers.rs:250-258 | the last valid organization of the header replaces the one known before |
| `Propagation.SentryBaggage.UpdateFromValue` | sentry-core/src/performance/headers.rs:263-267 | only the known key with a valid value changes anything |
| `Propagation.TryFromHeaders` | sentry-core/src/performance/headers.rs:103-133 | over any headers, the last valid `sentry-trace` with the last valid organization, or which error |
| `Propagation.FoldedIsLastValid` | sentry-core/src/performance/headers.rs:111-122 | the fold gives a context exactly when some `sentry-trace` spells it and no later one can be read |
| `Propagation.FoldedErrors` | sentry-core/src/performance/headers.rs:103-133 | the error is missing exactly when there is no `sentry-trace`, and invalid exactly when there are but none can be read |
| `Propagation.OrgIsNamedLast` | sentry-core/src/performance/headers.rs:103-133 | the organization is the one that some entry of some baggage header names and no later entry does |
| `Propagation.MemberOrg` | sentry-core/src/performance/headers.rs:250-267 | a list member of the W3C grammar, with any optional white space and properties, says what its value says under the known key only |
| `Propagation.MembersOrgs` | sentry-core/src/performance/headers.rs:250-258 | a header of several members says what each of them says, in order |
| `FunctionNames.BoundaryMakesZipSafe` | sentry-backtrace/src/utils.rs:122-129 | the byte-boundary check makes the truncating comparison exactly a prefix match in which a dot stands for a colon |
| `FunctionNames.FunctionStartsWith` | sentry-backtrace/src/utils.rs:100-130 | a pattern without brackets matches a prefix of the unwrapped name; one with brackets needs one of the name's for each of its own |
| `FunctionNames.PrefixMatches` | sentry-backtrace/src/utils.rs:126-129 | a name matches what it begins with, its colons as they are or as dots |
| `FunctionNames.PlainPrefixElsewhere` | sentry-backtrace/src/utils.rs:126-129 | without a dot in the name, or without a colon in the pattern, matching is being a prefix |
| `FunctionNames.UnwrapsInThisOrder` | sentry-backtrace/src/utils.rs:115-120 | unwrapping takes off every `<F as `, then every `<`, then every `_<` |
| `FunctionNames.BracketsMatchBrackets` | sentry-backtrace/src/utils.rs:101-114 | a pattern with brackets matches exactly the names with as many brackets, in any spelling, before a match of the rest |
| `Frames.AnyStartsWith` | sentry-backtrace/src/trim.rs:29-33 | whether some pattern of a list matches |
| `Frames.Classify` | sentry-backtrace/src/process.rs:18-65 | one frame by its preset, then the included, excluded and well-known prefixes, in this order |
| `Frames.ProcessEventStacktrace` | sentry-backtrace/src/process.rs:15-75 | the frames in place become the processed ones |
| `Frames.Idempotent` | sentry-backtrace/src/process.rs:15-75 | processing twice is processing once |
| `Frames.PresetsStay` | sentry-backtrace/src/process.rs:25-41 | preset flags, packages and names are never overridden |
| `Frames.Verdict` | sentry-backtrace/src/process.rs:15-75 | the flag and the package of every frame in the result, from the frame, the lists and whether another frame is in the application |
| `Frames.OpenIffUnknownBesideInApp` | sentry-backtrace/src/process.rs:43-74 | a frame stays unclassified exactly when some named frame is decided to be in the application and no list knows this one |
| `Crontab.SpelledItemIsValid` | sentry-types/src/crontab_validator.rs:62-81 | every spelling of an item within bounds is accepted |
| `Crontab.ValidItemIsSpelled` | sentry-types/src/crontab_validator.rs:62-81 | every accepted item spells something within bounds |
| `Crontab.ValidIffSpelled` | sentry-types/src/crontab_validator.rs:83-93 | a field is valid exactly when it spells a name or a list of items within its bounds |
| `Crontab.InBoundsMeansSomething` | sentry-types/src/crontab_validator.rs:40-81 | an item within bounds stands for at least one number and for allowed numbers only |
| `Crontab.ValidScheduleIffSpelled` | sentry-types/src/crontab_validator.rs:95-105 | a line is a valid schedule exactly when it has five fields, in any white space, each spelling something within its bounds |

## Left out

- HTTP transports, TLS and proxy options, transport factories and rate limiting: I/O and wrappers over other libraries.
- The JSON of events, contexts, logs and metrics, and the payload types behind it: the codec is opaque and assumed to
  print a line and read it back. Precision that a real codec loses, such as that of `sent_at`, is not modelled.
- Serde's rarer spellings of an enumeration in an item header, beyond a string and a one-field object with null.
- DSN and authentication parsing, regular expressions over backtraces, `strip_symbol`, `demangle_symbol`; the name of a
  crate is an uninterpreted function of the function's name.
- Overflow of `u32` and `u64` counters; a session that starts before the Unix epoch, for which the source panics.
- The contents of the constant lists of names, prefixes and content types: they are taken over as they are.
- Poisoned locks and panics inside worker threads or user callbacks.
- Weak memory orderings: the atomics of the client reports are steps in one order.
- Fairness before the shutdown flag is set: a worker that is never scheduled only delays what it would send.
- Iteration order of hash maps: counts are stated per bucket.
- Concurrent `configure_scope` calls on one hub, which the source documents as losing updates.
- Dropping the last handle of a session cell, which closes the session: `Sessions` models the drop, `Scopes` does not
  say when it happens.
- Cloning a live `Session`, and how the distinct id of a session is chosen from a user.
- A NaN sampling rate, and the rounding of rates: rates are real numbers.
- Data, tags, status and other setters of transactions and spans: straight assignments under a lock.
- `continue_from_span` and the deprecated spellings of the trace constructors: as `continue_from_headers` with fewer
  cases.
- Actix, tower, slog, log, panic, contexts, debug images and OpenTelemetry adapters, option builders, macros.
