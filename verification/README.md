# A verified model of the Splunk log reader

This project models the DuckDB extension that exports events from a Splunk search into DuckDB rows, and proves what a
query may rely on: whatever the network, the thread schedule and the chunk boundaries do, the rows handed out are the
rows of one response, each once and in order.

## What is modelled

The reference meaning of a response (`Reference`) is deliberately small: split the body into lines, take the rows of
each line up to the first line that reports a search error, and cut at the row cap. Everything else is proved against it.

- **Native scan** (`ScanMachine`, `ScanInvariant`, `ScanTheorems`, `ScanTermination`, `ScanInterrupts`). A step system with a
  program counter for the producer thread and one for the scanning thread (which finally runs the destructor), the mutex,
  the two condition variables with notified flags, spurious and timed wakeups, an adversarial network, and an interrupt that may come at
  any moment. `STANDARD_VECTOR_SIZE` stays symbolic. One invariant is kept by every step; safety, completeness,
  error semantics, wakeups and deadlock freedom follow from it, and with one measure the termination of every scan and
  destructor under every scheduler: total correctness, without help from the 100 ms timeout. An interrupted call ends by
  throwing.
- **Producer parsing** (`ChunkReader`). A class with the source's `pending`, `produced` and `limit_reached`, and the
  callback loops over arbitrary chunks; its result is a function of the concatenated bytes. `ProducerRefinement` shows
  that the producer thread of the step system, in every interleaving, does the same to its rows.
- **Browser scan** (`BrowserScan`). A class with the cursor over the completed body, the overflow queue and the chunk
  being filled. All its calls together return the reference meaning, or exactly the whole vectors before an error.
- **Request loops** (`RetryPolicy`, `ExportSearch`, `RetryTheorems`). The streaming export and the plain request against
  an arbitrary network. Which requests are sent, how long each wait is and how a loop ends are read off the network
  alone. No attempt begins after bytes have reached the parser, whose callback may want more, refuse, or throw.
- **Records and mapping** (`ExportRecords`, `EventMapping`, `RowMeaning`, `Attributes`, `Epoch`). Search errors, the
  three export shapes, the lazy memoised projection against an eager 18-column row, what the event's own JSON puts into each
  column, and the attribute merge.
- **Requests and catalog** (`SearchRequest`, `IndexCatalog`). Query normalisation, the form body and a reader for it,
  the index restriction, the two index-list parsers and the two-phase table lookup.
- **Composition** (`Pipeline`, `ScanMeaning`, `Witnesses`). Request loop, producer and scan end to end, for the runs whose
  network acts are those of a request loop; native against browser; projection pushdown and export shapes for whole
  responses; and inputs on which a guarantee one might expect fails.

`Common`, `Text`, `JsonValues`, `Lines` and `FirstOccurrence` hold what these share.

## How it is modelled

- JSON is a datatype; objects are ordered member lists, so keys may repeat, and keys and strings are cut at the first
  NUL where the source reads them through `const char *`.
- The yyjson parser and writer, DuckDB's ISO-8601 parsers and `strtod` are arbitrary total functions (`Library`), so
  every theorem holds for any of them. `std::stoll`, `Trim`, `Lower`, `CIEquals` and `URLEncode` are written out; their
  source is not part of the repository, and case and space are taken as ASCII.
- Strings are byte strings. `IsBytes` says so where the value of a byte matters; it excludes nothing a C++ `char` can be.
- The scanning classes and the step system take the line parser as a function value. `Reference.ScanParser` is the real
  one, and `ExportRecords.ParseAndMapLine` is proved to compute it.
- Code that touches only state guarded by the mutex is one step; a step ends at every lock, wait, notify and network
  read. `interrupted` is read without the mutex, so it is read again after the wait. It never turns false within one scan.
- `Cancel` has no effect of its own in the step system: the network may fail at any moment anyway.
- In one exchange, the status that selects the body's receiver is the final status of the response. An exception thrown
  by the export's callback leaves the request loop unchanged; that cpp-httplib lets it pass is assumed.

## What the proofs found

- The platforms treat the row cap differently. The native producer notices it at the next event, the browser before the
  next line. They disagree exactly on a response whose first error line follows exactly the cap-th row: the native scan
  raises the error, the browser scan ends normally (`Pipeline.PlatformsAgreeExactly`; `Witnesses.PlatformsDisagree` gives
  a family of such responses and `Witnesses.SmallDisagreement` the smallest).
- An interrupt notifies nobody and can make the producer give up on a row without an error. A call already waiting then
  returns an empty chunk, like a normal end of the result; `Witnesses.InterruptCanTruncate` does so for every vector size,
  cap, library and projection. A scan that ends normally is complete if and only if the producer neither gave up on a row
  nor left an exception unstored (`ScanTheorems.EndIsCompleteExactly`); both need an interrupt or a cancellation
  (`ScanTheorems.OnlyIfDisturbed`). `ScanTheorems.SwallowedFailure` is the case of a request failure left unstored.
- The export gives up where the plain request tries again if and only if an attempt that may still be retried breaks off
  after success bytes (`ExportSearch.SharedPolicy`; `ExportSearch.LoopsDiffer` is an example).
- A native call that raises does not hand out the rows still in the buffer. A browser call that raises loses the rows it
  had already put in its chunk: exactly the whole vectors before the error are handed out (`BrowserScan.State.ScanToEnd`).
- A `Retry-After` too large for 64 bits is ignored and the backoff is used instead (`RetryPolicy.AdvisedDelay`).
- An epoch in milliseconds before April 1970 is read as seconds (`Epoch.SmallMillisecondsMisread`).

The code and the repository's own README disagree in three places; the model follows the code. Lines 205-207 of that
README say a missing severity gives 0; the code gives NULL. Line 173 says the advised `Retry-After` is waited out; the code
adds a second and stops at 60. Lines 196 and 201 name the event's own fields for `body` and the log attributes; the code
also looks at the nested `fields` object (for the body) and at the object inside `_raw` (for the attributes).

## Model

The first 26 rows are the main results; the rest are grouped by component.

| member | source | states |
|---|---|---|
| `ScanTermination.EveryScanEndsRight` | src/logs_table.cpp:651-743 | Total correctness: from any undisturbed point, once the network sends no more bytes, every scheduler brings the scan to its end, and it has then returned exactly the capped rows, or raised the first error, of the bytes received |
| `ScanTheorems.RowsArePrefix` | src/logs_table.cpp:679-743 | In every reachable state, for every body the request can still turn into, the rows returned by all calls, the chunk being filled and the buffer form a prefix, in order, of the capped rows of that body |
| `ScanTheorems.EndIsComplete` | src/logs_table.cpp:866-899 | If some call returned no rows and nobody cancelled or interrupted, all calls together returned exactly the capped rows of the body, and the body raises nothing |
| `ScanTheorems.EndIsCompleteExactly` | src/logs_table.cpp:701-736 | Disturbed or not, a scan that ends normally is complete if and only if the producer neither gave up on a row after the wait nor left an exception unstored |
| `ScanTheorems.RaisedSearchErrorIsFirst` | src/logs_table.cpp:574-610 | A search error raised by a call is the first one of the body; the rows pushed are all rows of the earlier lines, within the cap, and no later line was parsed, even if cancelled or interrupted |
| `ScanInvariant.InvReachable` | src/logs_table.cpp:866-895 | Every reachable state has that invariant |
| `ScanTermination.ScanEnds` | src/logs_table.cpp:866-899 | Whatever the scheduler prefers and without spurious or timed wakeups, every scan and destructor ends after finitely many acts if no more bytes arrive |
| `ScanTheorems.NeverStuck` | src/logs_table.cpp:866-898 | During a call or the destructor some thread can move without a spurious or timed wakeup, unless the network is awaited |
| `Pipeline.NativeScanEndToEnd` | src/splunk_client.cpp:241-305 | For every network, retry history, consumer and run that follows the request loop, an undisturbed scan that ends has returned exactly the capped rows of the one success body |
| `Pipeline.PlatformsAgreeExactly` | src/logs_table.cpp:686-693 | Both platforms decode the same rows of any body; they end alike if and only if it is not the case that the first error line follows exactly the cap-th row |
| `ProducerRefinement.FinishedLikeReader` | src/logs_table.cpp:679-743 | In every interleaving a finished producer has pushed the rows and ended the way the sequential reader does on the same bytes, cancelled at the same row |
| `ChunkReader.Reader.Export` | src/logs_table.cpp:679-736 | Rows pushed and ending depend only on the concatenated bytes, not on their cutting into chunks: the whole body when the request ends, the complete lines when it fails |
| `BrowserScan.State.ScanToEnd` | src/logs_table.cpp:816-864 | Scanning until an empty chunk terminates and the concatenated chunks are exactly what the body means; on an error they are exactly its whole vectors before the error |
| `ExportSearch.NoByteIsReplayed` | src/splunk_client.cpp:241-305 | For every network and consumer no attempt begins after bytes reached the consumer, and what it receives is a prefix of one success body, all of it on completion |
| `ExportSearch.SharedPolicy` | src/splunk_client.cpp:193-228 | Facing the same network both loops send the same requests, sleep alike and end alike, if and only if the network lets no attempt that may still be retried break off after success bytes |
| `EventMapping.MapEvent` | src/logs_table.cpp:367-474 | For any column list, with repeats and sentinels, slot `c` is column `columnIds[c]` of the eager row; `_raw` and `_time` are parsed at most once, and only if some column needs them |
| `ScanMeaning.ProjectionPushdown` | src/logs_table.cpp:361-368 | Scanning with any column list gives the same number, order and error of rows as a full scan projected afterwards, under any cap |
| `Attributes.LogMembersKeys` | src/logs_table.cpp:293-328 | The merged object has each key once; its keys are exactly the non-internal fields of event and `_raw`, in order of first occurrence |
| `SearchRequest.FormDecodesToInputs` | src/logs_table.cpp:499-509 | Splitting the body at `&` and `=` and decoding as a form server does gives back the normalised query in the sense of `NormalizesExactly`, the times, the mode and, only when capping, the count |
| `SearchRequest.IndexQueryRoundTrip` | src/logs_table.cpp:511-523 | Reading the restriction as a backslash-escaped literal consumes it whole and returns the index name, for every name |
| `IndexCatalog.CatalogReachability` | src/splunk_catalog.cpp:107-125 | Every offered name finds its own table even among case variants; a lookup succeeds if and only if some offered name matches up to case, and takes the first listed one |
| `ScanInterrupts.InterruptedCallEnds` | src/logs_table.cpp:871-880 | From any reachable state in which the producer does not hold the mutex, an interrupted call with nothing to return ends within four acts of its own thread, one of them a timeout if it was asleep, with an interrupt thrown and the scan cancelled |
| `RetryTheorems.ExportRequestsExactly` | src/splunk_client.cpp:241-304 | Request `k` is sent if and only if every attempt before it calls for another - status 429 or at least 500, or a transport error other than the three certificate ones before any success byte - within the budget, wanted by the consumer and without an interrupt |
| `RowMeaning.TextColumnsExactly` | src/logs_table.cpp:415-453 | Trace id, span id, service, severity text and body are the strings under these literal keys in the first of event, `fields` and parsed `_raw` that has one, and NULL exactly when none has; the parsed `_raw` is the text of `_raw` exactly when it begins with a brace and parses to an object |
| `ExportRecords.RecordRaisesExactly` | src/logs_table.cpp:574-591 | A record raises an error if and only if its root is an object whose first `messages` member is an array with an ERROR or FATAL message anywhere, and the error is that of the first such one |
| `SearchRequest.NormalizesExactly` | src/logs_table.cpp:482-496 | The result without the function: with the unique text left when white space is trimmed, `search *` for nothing, that text for a leading pipe or for the seven bytes of `search ` in any letter case, and that text after `search ` otherwise |
| `ScanTheorems.OnlyIfDisturbed` | src/logs_table.cpp:701-736 | Giving up on a row needs an interrupt or a cancellation, and a normal end after an exception needs a cancellation |
| `ScanTheorems.SwallowedFailure` | src/logs_table.cpp:731-736 | A normal end after an unstored request failure returns the rows of the complete lines, and is complete if and only if the missing bytes add nothing within the cap |
| `Witnesses.InterruptCanTruncate` | src/logs_table.cpp:701-704 | For every vector size, cap, library and projection there is a reachable interrupted run that ends normally and returns nothing, although the response holds an event |
| `ScanTheorems.FinishedIsExact` | src/logs_table.cpp:679-743 | When the producer has finished undisturbed and the request did not fail, rows pushed and error kept are exactly what the body means, for every schedule and chunking |
| `ScanTheorems.EmptyChunkMeansEnd` | src/logs_table.cpp:870-898 | A zero-row call occurs only when the producer has finished without an error and the buffer is empty, and every row pushed has then been returned |
| `ScanTheorems.RequestFailureKeepsTail` | src/logs_table.cpp:712-736 | After a failed request exactly the complete lines were parsed and their rows pushed; the unterminated tail is never a row |
| `ScanTheorems.BufferIsBounded` | src/logs_table.cpp:670-706 | The buffer never exceeds two vectors, a call never returns more than one, and at most `cap` rows are ever produced when `cap > 0` |
| `ScanTheorems.RowsOnlyGrow` | src/logs_table.cpp:697-708 | No step of any thread loses, repeats or reorders a row, and none enters once `cancelled` or `finished` is set |
| `ScanTheorems.NeverBothAsleep` | src/logs_table.cpp:697-708 | Producer and scanning thread are never both asleep without a notification |
| `ScanTheorems.NoLostWakeup` | src/logs_table.cpp:651-742 | A thread sleeps un-notified only while the buffer gives it nothing to do (full and not cancelled, or empty and not finished) or the other thread is between its state change and its notify; an interrupt alone notifies nobody |
| `ScanTheorems.JoinNeverBlocked` | src/logs_table.cpp:651-661 | While the destructor joins, the producer is never asleep un-notified: it has exited, waits for the network, or can move |
| `ScanTermination.InternalShrinks` | src/logs_table.cpp:697-743 | Every program step, announced wakeup, further call and request end shrinks one lexicographic measure or ends the scan |
| `ScanTermination.CancelledProducerExits` | src/logs_table.cpp:697-743 | Once cancelled, every act of the producer, even after a spurious wakeup, decreases a well-founded measure, and it never sleeps again |
| `ScanInvariant.InvStep` | src/logs_table.cpp:651-743 | Every step of every actor keeps mutual exclusion, the phase facts, the buffer bounds, the wakeup facts, the text accounting and the row accounting |
| `ScanInterrupts.InterruptedCallAlwaysEnds` | src/logs_table.cpp:871-880 | The same whatever the producer is doing, after at most one step of it |
| `ScanInterrupts.InterruptedNeverDozes` | src/logs_table.cpp:871-880 | No step of an interrupted scanning thread goes to sleep again |
| `ScanInterrupts.ThrownOnlyIfInterrupted` | src/logs_table.cpp:872-877 | A call throws an interrupt only in an interrupted run, and leaves the scan cancelled |
| `ScanInterrupts.InterruptedPushesNothing` | src/logs_table.cpp:698-704 | No act of anybody adds a row to an interrupted scan |
| `ScanInterrupts.InterruptedGivesUp` | src/logs_table.cpp:697-704 | An interrupted or cancelled producer at the lock does not wait for space and gives its row up |
| `ScanInterrupts.StoredErrorIsRaised` | src/logs_table.cpp:881-885 | Once an error is stored a call raises it at once, and buffered rows are not handed out |
| `ScanInterrupts.CancelledStoresNoError` | src/logs_table.cpp:731-736 | A cancelled scan keeps no error that comes later |
| `ScanInterrupts.DrainsAllItCan` | src/logs_table.cpp:886-893 | A call stops taking rows only at a full vector or an empty buffer |
| `ScanInterrupts.ReturnsWhatItTook` | src/logs_table.cpp:886-898 | And returns exactly the rows it took |
| `Pipeline.NativeScanPrefix` | src/splunk_client.cpp:241-305 | For every such run, disturbed or not and ended or not, what was returned is a prefix of those rows |
| `Pipeline.PrefixAtEveryMoment` | src/splunk_client.cpp:241-305 | The prefix claim at every intermediate state of such a run |
| `Pipeline.FollowersAreFed` | src/splunk_client.cpp:246-304 | A run whose network acts are those of a request loop, as far as it has got, has received a prefix of the bytes handed over, and all of them once it saw the request complete |
| `Pipeline.FedByOneBody` | src/splunk_client.cpp:246-304 | Such bytes are a prefix of the last success body, and all of it once the request completed |
| `Pipeline.EveryRunFollows` | src/logs_table.cpp:712-727 | Every run fed one answer, complete, broken off or still coming, follows the request loop that gets this answer and has the producer as its consumer |
| `Pipeline.RepliesAsProduced` | src/logs_table.cpp:712-727 | In an undisturbed run the reply to the bytes so far is to want more where the producer waits for the network again, to refuse where it has reached its limit, and to throw where a line has raised |
| `Pipeline.RunBytes` | src/logs_table.cpp:712-713 | Along any run the stream is what the network sent, and the request has ended if and only if the network said so |
| `Pipeline.EndAgreesWithBrowser` | src/logs_table.cpp:820-898 | A native scan that ends undisturbed has returned what the browser scan returns for the same body, and that one ends normally too |
| `Witnesses.PlatformsDisagree` | src/logs_table.cpp:686-693 | For any events, cap as many, and an error line after them, the native scan raises and the browser scan ends normally, with the same rows |
| `Reference.MeaningsDifferExactly` | src/logs_table.cpp:837-849 | The two cap rules give the same rows always and a different error exactly when an error line follows exactly `cap` rows |
| `Reference.NothingAfterAnError` | src/logs_table.cpp:574-610 | Lines after the first error line change neither the rows nor the error |
| `Reference.SilentLinesIgnored` | src/logs_table.cpp:593-610 | A line that yields nothing may be put in or left out anywhere |
| `ProducerRefinement.ReceivingIsReady` | src/logs_table.cpp:712-727 | Waiting for the network, the producer thread satisfies the condition that holds between two callbacks of the reader |
| `ChunkReader.Reader.OnChunk` | src/logs_table.cpp:712-727 | After each callback the complete lines of all bytes so far are delivered and, unless stopped or thrown, `pending` is exactly the unterminated suffix |
| `ChunkReader.Reader.ParsePending` | src/logs_table.cpp:713-722 | The newline loop parses the complete lines in order and stops at the first error, at the limit, or with no newline left |
| `ChunkReader.Reader.PushRows` | src/logs_table.cpp:686-709 | The events of a line extend the rows pushed up to the cap or the cancellation point, and the limit flag is set exactly when a row had to be refused |
| `ChunkReader.Reader.OnRow` | src/logs_table.cpp:686-708 | One event is pushed, or refused at the cap or on cancellation, and refusal is permanent |
| `ChunkReader.Reader.ParseLine` | src/logs_table.cpp:685-710 | One more line extends the delivered meaning, stops it or throws its error |
| `Lines.SplitRebuilds` | src/logs_table.cpp:713-725 | The complete lines and the tail are the text again, and none of them contains a newline |
| `Lines.SplitOfUnlines` | src/logs_table.cpp:713-725 | Any way of cutting off newline-free lines agrees with the split |
| `Lines.SplitExtends` | src/logs_table.cpp:713-725 | More bytes only append the lines made from the old tail and the new bytes |
| `BrowserScan.State.Scan` | src/logs_table.cpp:816-864 | Each call keeps the cursor invariant; it returns at most a vector, a shorter chunk only when body and overflow are exhausted; an error is the first one of the body after exactly the rows handed out or lost, and less than a vector is lost |
| `BrowserScan.State.ParseAhead` | src/logs_table.cpp:837-864 | The decode loop terminates and ends with a full chunk or with nothing left; the overflow queue is empty whenever the chunk has room |
| `BrowserScan.State.ParseNext` | src/logs_table.cpp:842-863 | One record is decoded and the cursor moves past it, or its error leaves the cursor on it |
| `BrowserScan.State.OnRow` | src/logs_table.cpp:847-862 | An event goes to the chunk while it has room, else to the overflow queue, and nowhere once the cap is reached; order is kept |
| `BrowserScan.State.DrainOverflow` | src/logs_table.cpp:829-836 | Rows move from the queue to the chunk in order until the chunk is full or the queue empty |
| `BrowserScan.State.Fetch` | src/logs_table.cpp:747-755 | The body is stored once and whole; a failed request leaves the scan unfetched |
| `BrowserScan.State.ExhaustedIsComplete` | src/logs_table.cpp:837-863 | When cursor and queue are exhausted, everything the body means was decoded and it raises nothing |
| `BrowserScan.State.DecodedIsPrefix` | src/logs_table.cpp:837-863 | At any moment the rows decoded so far are a prefix of what the body means |
| `BrowserScan.State.FailingIsFirstError` | src/logs_table.cpp:846-863 | The error at the cursor is the first of the body, after exactly the rows decoded |
| `ExportSearch.SharedWithoutBreaks` | src/splunk_client.cpp:285-304 | In particular on every network where no success byte precedes a retryable transport failure |
| `ExportSearch.LoopsDiffer` | src/splunk_client.cpp:284-289 | A concrete network on which the plain request completes and the export fails after one byte |
| `RetryTheorems.ExportDelaysExactly` | src/splunk_client.cpp:290-299 | There is a wait `k` if and only if attempt `k` calls for another; it is the advised one for a 429 whose header can be read, and `min(2^k, 60)` otherwise |
| `RetryTheorems.ExportEndsExactly` | src/splunk_client.cpp:275-304 | The last attempt ends the loop: by an interrupt, by the consumer, by its transport error, completed on 2xx, and failed with the status and the first 4096 bytes of the body on any other |
| `RetryTheorems.FirstStatusDecides` | src/splunk_client.cpp:293-304 | 2xx completes at once, 429 and 5xx are followed by a second request within the budget, and every other status fails at once |
| `RetryTheorems.PlainRequestsExactly` | src/splunk_client.cpp:193-228 | The same if-and-only-if for the requests of the plain loop |
| `RetryTheorems.PlainDelaysExactly` | src/splunk_client.cpp:209-218 | The same for its waits |
| `RetryTheorems.PlainEndsExactly` | src/splunk_client.cpp:199-228 | The same for its end and its body |
| `RetryTheorems.JudgeExactly` | src/splunk_client.cpp:278-304 | When an exchange calls for another attempt, with which wait, and how it ends the loop otherwise |
| `RetryTheorems.NumericAdvice` | src/splunk_client.cpp:118-133 | The wait for a numeric Retry-After, in numbers |
| `ExportSearch.RetryBudget` | src/splunk_client.cpp:241-304 | At most `retries + 1` requests, every sleep between 1 and 60 seconds, and at most `60 * retries` seconds in all |
| `ExportSearch.TotalWait` | src/splunk_client.cpp:290-299 | Without a Retry-After the total wait of `n` sleeps is `2^n - 1` up to six and `63 + 60(n - 6)` beyond |
| `ExportSearch.OfferedBytes` | src/splunk_client.cpp:260-272 | The consumer gets a prefix of the body, and all of it if it always wants more |
| `ExportSearch.SplunkClient.ExportSearch` | src/splunk_client.cpp:241-305 | The attempt loop computes the run these properties are about, for callbacks that want more, refuse or throw, and exactly the failed requests drop their connection |
| `ExportSearch.SplunkClient.TryOnce` | src/splunk_client.cpp:246-304 | One pass of the loop: the consumer, the interrupts, the retry decision and the connection |
| `ExportSearch.SplunkClient.Receive` | src/splunk_client.cpp:260-272 | Chunks reach the consumer only under a success status and only up to its refusal or exception; otherwise the first 4096 bytes of the error body are kept, however chunked |
| `ExportSearch.SplunkClient.AuthenticatedRequest` | src/splunk_client.cpp:193-229 | The plain loop computes the run it is compared with in `SharedPolicy` |
| `RetryPolicy.AdvisedDelay` | src/splunk_client.cpp:118-133 | A numeric Retry-After waits one second more, at most 60; one beyond 64 bits falls back to the backoff |
| `Text.StollReads` | src/splunk_client.cpp:119-125 | A header is read as blanks, a sign and digits, whatever follows; out of range it is not read |
| `Text.StollReadsNothing` | src/splunk_client.cpp:119-130 | A header without a digit in that place is not read |
| `RetryPolicy.RateLimitRetryDelaySeconds` | src/splunk_client.cpp:118-133 | Any Retry-After text, readable or not, gives a wait of 1 to 60 seconds |
| `RetryPolicy.BackoffTotal` | src/splunk_client.cpp:209-218 | The closed form of the summed backoffs |
| `RetryPolicy.Judge` | src/splunk_client.cpp:199-228 | A retry is decided only within the budget and with a delay of 1 to 60 seconds |
| `ExportRecords.ParseExportLine` | src/logs_table.cpp:596-610 | The parser finds the error or the events of a line in the order of the callbacks |
| `ExportRecords.ThrowIfSearchError` | src/logs_table.cpp:574-591 | The loop finds the error `RaisesFirstError` describes |
| `ExportRecords.ExtractEventsFromRoot` | src/logs_table.cpp:533-568 | The branches and the `results` loop yield the events the other rows of this group speak about |
| `ExportRecords.ParseAndMapLine` | src/logs_table.cpp:685-695 | Parsing and mapping a line together yield the line outcome used by all scans |
| `ExportRecords.RaisesFirstError` | src/logs_table.cpp:582-590 | Messages raise if and only if one is ERROR or FATAL in any case; the error is the first such one, with its type and text |
| `ExportRecords.LineFailsExactly` | src/logs_table.cpp:596-610 | A line fails if and only if what is left without carriage returns parses to such a record |
| `ExportRecords.LineYieldsExactly` | src/logs_table.cpp:596-610 | Any other line yields one row for each of its events, and none when blank or malformed |
| `ExportRecords.EventsExactly` | src/logs_table.cpp:533-568 | Which shape decides a record: preview, `result` object, the objects of a `results` array, or a flat event with `_time`, `_raw` or `message` |
| `ExportRecords.SearchErrorExactly` | src/logs_table.cpp:585-586 | A message is an error exactly when its first `type` member is FATAL or ERROR in any letter case |
| `Text.CIEqualsExactly` | src/logs_table.cpp:585-586 | Case-insensitive equality, letter by letter over two literal alphabets |
| `ExportRecords.ExportShapesAgree` | src/logs_table.cpp:545-561 | One streamed record per event and one buffered record carry the same events in order |
| `ExportRecords.SilentLineExactly` | src/logs_table.cpp:533-610 | Exactly which lines carry neither event nor error: empty, malformed, previews, and records without the event fields |
| `ExportRecords.EventsAreObjects` | src/logs_table.cpp:533-568 | Only JSON objects are ever mapped |
| `ExportRecords.CarriageReturnsIgnored` | src/logs_table.cpp:597-602 | Any number of carriage returns before the newline changes nothing |
| `ScanMeaning.ResponseShapesAgree` | src/logs_table.cpp:529-568 | The bytes of a response mean the same whether its events are streamed one per line or buffered in one record |
| `ScanMeaning.NoiseIgnored` | src/logs_table.cpp:529-610 | A blank, malformed, preview or error-free message line can be inserted after any line of a response, whatever bytes follow |
| `EventMapping.EventMapper.MapColumn` | src/logs_table.cpp:409-472 | Each case of the switch, through the memo caches, gives the eager column and forces only what it needs |
| `EventMapping.LookupPriority` | src/logs_table.cpp:136-149 | A lookup is empty if and only if no source has a string under any key; otherwise the earliest source answers, and there the earliest key |
| `RowMeaning.TimeColumnsExactly` | src/logs_table.cpp:200-223 | Both time columns are the epoch of a number, or for a string its ISO-8601 reading, else its numeric one, else NULL |
| `RowMeaning.SeverityColumnExactly` | src/logs_table.cpp:105-126 | The severity number is that of the severity text by its literal names in any letter case, 0 for other names, and NULL with it |
| `RowMeaning.AttributeColumnsExactly` | src/logs_table.cpp:454-467 | The two attribute columns are the written objects of the five promoted fields and of the merged members, NULL when empty |
| `RowMeaning.OtherColumnsExactly` | src/logs_table.cpp:468-472 | The other eight columns are NULL |
| `JsonValues.GetExactly` | src/logs_table.cpp:128-134 | A lookup finds the first member of that name, and nothing exactly when there is none |
| `JsonValues.GetStrExactly` | src/logs_table.cpp:128-134 | A string lookup answers exactly when that member is a string, with its bytes up to a NUL |
| `EventMapping.BodyIgnoresParsedRaw` | src/logs_table.cpp:446-453 | The parsed `_raw` object never decides the body |
| `EventMapping.SharedColumnsAgree` | src/logs_table.cpp:410-445 | Severity number and text are NULL together and correspond; both time columns agree |
| `EventMapping.RowsMatchSchema` | src/logs_table.cpp:73-98 | Every column holds NULL or a value of its declared type |
| `Attributes.BuildLogAttributes` | src/logs_table.cpp:323-335 | The text is the merged object, or empty when nothing is left |
| `Attributes.CopyNonInternalFields` | src/logs_table.cpp:295-317 | Copying a source extends the object to the first-wins merge of everything offered, and reports whether it grew |
| `Attributes.EventBeatsRaw` | src/logs_table.cpp:307-310 | Each merged value is the first one under its key, and the event beats its `_raw` |
| `Attributes.LogMembersExactly` | src/logs_table.cpp:295-335 | A member is in the merged object if and only if its key is not internal and its value is that of the first such field of the event, or else of the parsed `_raw` |
| `Attributes.InternalExactly` | src/logs_table.cpp:235-269 | The literal field names kept out of the log attributes |
| `Attributes.ResourceExactly` | src/logs_table.cpp:235-289 | The resource attributes are the five literal fields under their five literal names, in order |
| `Attributes.BagsAreDisjoint` | src/logs_table.cpp:225-261 | No field promoted to the resource attributes also appears in the log attributes |
| `Attributes.BuildResourceAttributes` | src/logs_table.cpp:273-291 | The text is the object of the resource members, or empty when there is none |
| `Attributes.ResourceMembersExact` | src/logs_table.cpp:278-285 | An attribute is present if and only if its Splunk field is a string, with that value |
| `Epoch.UnitsDetectedExactly` | src/logs_table.cpp:185-196 | Seconds, milliseconds, microseconds and nanoseconds of an instant are all recognised if and only if it is 0 or from 1e7 to 1e10 seconds |
| `Epoch.ReadingsAgree` | src/logs_table.cpp:185-196 | In that range all four readings round to one nanosecond count, inside int64 when the instant is |
| `Epoch.RoundIsNearest` | src/logs_table.cpp:185-196 | Rounding gives the nearest integer, halves away from zero |
| `Epoch.SmallMillisecondsMisread` | src/logs_table.cpp:192-195 | Between 0 and 1e7 seconds a milliseconds reading comes out a thousand times too late |
| `Epoch.FitsExactly` | src/logs_table.cpp:185-196 | The numeric intervals of values whose rounded nanosecond count is an int64 |
| `Epoch.ScaledFitsExactly` | src/logs_table.cpp:185-196 | The numeric intervals of values that scale into the int64 range before rounding |
| `SearchRequest.BuildExportBody` | src/logs_table.cpp:499-509 | The appended text is the form of those fields |
| `SearchRequest.DecodeEncode` | src/logs_table.cpp:500-502 | Percent-decoding inverts the encoding of every byte string (section 2.1 of RFC 3986) |
| `SearchRequest.NormalizeIsIdempotent` | src/logs_table.cpp:482-496 | Normalising twice is normalising once, for every input, and the result is a command |
| `SearchRequest.EncodeExactly` | src/logs_table.cpp:500-502 | The encoding byte by byte: letters, digits and four marks stay, all else is a percent sign and two upper-case hexadecimal digits |
| `SearchRequest.DecimalExactly` | src/logs_table.cpp:506 | The count is written in decimal digits |
| `SearchRequest.EscapeExactly` | src/logs_table.cpp:513-523 | The restriction byte by byte: only backslashes and quotes get a backslash |
| `SearchRequest.BuildIndexQuery` | src/logs_table.cpp:513-523 | The escape loop builds the restriction that the next rows read back |
| `SearchRequest.IndexQueryInjective` | src/logs_table.cpp:511-523 | Distinct index names give distinct restrictions |
| `SearchRequest.IndexQueryNormalized` | src/logs_table.cpp:482-496 | Normalisation only prepends `search ` to a restriction |
| `SearchRequest.CatalogRequestNamesItsIndex` | src/logs_table.cpp:922-926 | A catalog table's request, decoded by the server, restricts to exactly its own index and carries no count |
| `IndexCatalog.DistinctNames` | src/splunk_catalog.cpp:296-310 | Each offered name is listed once, in order of first appearance, and nothing else is |
| `IndexCatalog.ParseExplicitIndexes` | src/splunk_catalog.cpp:291-311 | Accepts exactly the VARCHAR lists of non-empty names, else reports the first offender |
| `IndexCatalog.OffenceExactly` | src/splunk_catalog.cpp:298-305 | There is no offender if and only if every element is a non-empty string; otherwise the first offender is reported for what it is |
| `IndexCatalog.ParseDiscoveredIndexes` | src/splunk_catalog.cpp:319-348 | Lists the distinct usable entry names; fails only on invalid JSON or a missing entry array |
| `IndexCatalog.EntryNamesExactly` | src/splunk_catalog.cpp:332-346 | An entry contributes its first `name` member when that is a non-empty string, and nothing otherwise |
| `IndexCatalog.SplunkSchemaEntry.constructor` | src/splunk_catalog.cpp:86-91 | One table per index name, in order, reading that index |
| `IndexCatalog.SplunkSchemaEntry.LookupEntry` | src/splunk_catalog.cpp:107-125 | The two loops compute the lookup of `CatalogReachability`; other kinds of entry find nothing |
| `FirstOccurrence.DedupOrder` | src/splunk_catalog.cpp:306-308 | First-wins de-duplication: same keys, each once, each the first with its key, in input order |
| `Witnesses.SmallTruncation` | src/logs_table.cpp:701-704 | The same for one concrete library and response |
| `Witnesses.SmallDisagreement` | src/logs_table.cpp:837-849 | The same for cap 1, one event record and one error record of a concrete library |

## Left out

- Sockets, TLS, cpp-httplib and browser fetch: only what they deliver and when is modelled, as an arbitrary network.
- Retries of a browser request, which happen inside DuckDB's HTTP layer: the browser scan sees a body or a failure.
- yyjson, DuckDB's timestamp parsers and `strtod`: arbitrary functions; UTF-8 validity is theirs.
- Wall-clock time: sleeps are counted in seconds, and an interrupt during one is a flag of the attempt.
- Wording of error messages, except the type and text of a search error.
- Secrets, credential headers, `NormalizeUrl`, attach options, the read-only overrides, transactions and registration.
- Column names and types beyond their positions, and writing rows into DuckDB vectors.
- Epoch.ReadingsAgree: over reals, because the rounding of doubles is not modelled; rounding to integers is.
- ExportSearch.NoByteIsReplayed: for `retries <= 64`, because `1 << attempt` is undefined beyond attempt 63; the same bound applies to `ExportSearch.RetryBudget`, `ExportSearch.TotalWait`, `ExportSearch.SharedPolicy` and the two loops.
- ExportSearch.TotalWait: only without `Retry-After`, because advised waits are the server's choice; `RetryBudget` bounds those.
- ScanTheorems.EndIsComplete: only for uninterrupted and uncancelled runs, because `Witnesses.InterruptCanTruncate` shows an interrupted run that is incomplete; `ScanTheorems.EndIsCompleteExactly` covers all runs.
- ScanTermination.ScanEnds: for a network that stops sending, because that `Cancel` closes the socket is not modelled; interrupts are excluded since one more can always come, and spurious wakeups since they need not end.
- ChunkReader.Reader.Export: the wait for buffer space is a single possible cancellation row here; the waiting itself is in the step system, and `ProducerRefinement.FinishedLikeReader` relates the two.
- Pipeline.EveryRunFollows: for a single answer, complete or broken off, because a run whose request fails in another way is fed by other networks; the end-to-end theorems hold for all of them.
- ScanMeaning.ResponseShapesAgree: for object events, because the source maps nothing else.
