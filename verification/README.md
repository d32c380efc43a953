# Verified model of the ait gateway

This project models the parts of the gateway where state, concurrency or byte-level
detail decide correctness, and proves properties of them in Dafny 4.11. Check it with
`dafny verify dfyconfig.toml`.

* **The SSE re-framing stream** (`Bytes`, `EventStream`, `Boundaries`, `SseSpec`, `SseRuns`,
  `SseMeaning`, `SseTheorems`, `SseEndings`, `SseTail`, `SseStream`, `Utf8`). The upstream body is an arbitrary script of
  chunks, errors, not-ready polls and end of file; deadlines and shutdown are arbitrary flags of each
  poll. `SseStream` is the class with its in-place buffer and scan cursor; each method equals its
  counterpart in `SseSpec`, which rescans the whole buffer. `EventStream` interprets a stream as
  sections 9.2.5 and 9.2.6 of the WHATWG HTML Living Standard do, so that "the client reads the same
  events with rewritten data" is a theorem and not a slogan.
* **The log guard** (`ProxyLog`, `LogGuard`): one record per request over every exit.
* **API keys**: `KeyProtocol` interleaves lookups and mutations one code step at a time and proves what
  the revision guard gives; `KeyCache` takes whole handlers as steps and proves agreement with the table.
* **Bounded caches** (`CacheTtls`, `CappedCache`) and **model resolution**: `ModelCache` takes whole
  requests as steps, `ModelProtocol` lets lookups and handlers interleave and says which handlers spoil
  which lookups.
* **Background workers**: `BatchWorker` is the loop that the log worker and the Loki worker share;
  `LogWorker` adds the transactional writes and retention, `Loki` the payload, `WorkerPool` the
  analytics pool and its shutdown.
* **Smaller cores**: `Dlp` (sensitive values), `Cidr` and `Addresses` (prefixes, allow list, trusted
  proxies), `JsonTree` and `JsonRename` (response rewrites), `Arithmetic` (quotients).

## Where the code and its documentation differ

The model follows the code.

* The DLP scanner's comments promise the first configured value found in the body. With overlapping
  values the matcher can report a later one (`Dlp.LowestCanBeMissed`); `Dlp.AlwaysLowestIff` says exactly
  for which lists that can happen. Whether a body is blocked is unaffected (`Dlp.Scan`).
* The NAT64 prefix is documented as `64:ff9b::/96`; the code tests the first 64 bits only. The verdict
  is shown for every value of the bits in between (`Addresses.EmbeddingsShareVerdict`).
* `TrustedProxy::contains` says both sides are canonicalized. They are only when the families differ, so
  an IPv6 entry can tell a peer from its embedded form: one that embeds an IPv4 block misses plain peers
  (`Addresses.MappedEntryMissesPlainPeer`), and `1::/0` holds embedded peers but not the plain ones.
  `Addresses.EntryIsInvariantIff` says exactly which IPv6 entries are indifferent to the form.
* The stream recognizes `LF LF` and `CR LF CR LF` only. A last event ended by `LF CR LF` is complete for a
  client but reaches it with its payload unrewritten (`SseTail.HiddenBlankLineLosesRewrite`). For an
  upstream whose events fit the buffer, every rewriting that leaves the rest after the last whole
  event alone reaches every message exactly when no data line with a payload precedes a blank line in that rest (`SseTail.RewriteIsKeptIff`).
* The comments on the key revision say a concurrent delete cannot leave a revoked key cached. It can
  (`KeyProtocol.DeletedKeyCanStayCached`), exactly when the delete is committed after the lookup's read, has
  removed the entry, if at all, before the insertion, and has not bumped the revision when it is reloaded
  (`KeyProtocol.DeletedIsCachedIffStraddled`).
* The model caches have no such guard. A lookup that a handler straddles can store what no longer holds
  (`ModelProtocol.DisabledModelCanStayCached`), exactly when the handler's arguments change the answer read
  (`ModelProtocol.StraddledStoreAgreesIff`).

## Model

| member | source | states |
|---|---|---|
| SseTheorems.MeaningIsPreserved | src/handlers/proxy/sse.rs:169-297 | for every BOM-free UTF-8 stream with LF or CRLF line ends, every chunking and every forced cut, the chunks a run hands out that ends at end of file with an empty buffer are read by a standard event-stream parser as the upstream's bytes with each data value rewritten and every other field, id and retry unchanged |
| SseTheorems.ChunkingIsInvisible | src/handlers/proxy/sse.rs:255-297 | two runs over the same bytes chunked and timed differently are read alike by the client |
| SseTheorems.ChunkingOnlyCoarsens | src/handlers/proxy/sse.rs:54-101 | without forced cuts every emitted segment is a run of whole minimal events, and the segments' events in order are those of the bytes cut off |
| SseTheorems.SegmentsAreMinimalEvents | src/handlers/proxy/sse.rs:54-101 | with one terminator kind in use and every event within 1 MiB, the segments are exactly the minimal events of the stream, whatever the chunking |
| SseTheorems.StreamConserves | src/handlers/proxy/sse.rs:94-101 | at every point of every run accepted bytes are the raw segments, the flushed tail and the buffer in order, and never exceed the byte cap; at end of file all upstream bytes were accepted |
| SseTheorems.PendingIsBounded | src/handlers/proxy/sse.rs:234-293 | whenever a poll returns Pending the buffer holds no boundary and at most 1 MiB |
| SseTheorems.ExactlyOneRecord | src/handlers/proxy/sse.rs:139-208 | a stream polled any number of times and then dropped, at any moment, has written one record, that of its segments and the end it took |
| SseTheorems.LastReportWins | src/handlers/proxy/sse.rs:103-111 | the usage kept over a sequence of payloads is that of the last one whose prompt, completion or total count is positive |
| SseTheorems.UsageIsAttributed | src/handlers/proxy/sse.rs:139-152 | for any bytes, the record's completion, total and cached counts are those of the last data value in the segments cut off that reported a positive count, and its prompt count falls back to the seeded estimate exactly when that report has none |
| SseTheorems.UsageIsTheUpstreams | src/handlers/proxy/sse.rs:103-184 | for a plain text read to its end the payloads are the values of the data lines of the upstream's own text, in order, as the standard reads them, so the record carries what the last of them reported and the seeded counts if none did |
| SseTheorems.InvalidGoesUnchanged | src/handlers/proxy/sse.rs:169-172 | a segment that is not UTF-8 reaches the client as it came |
| SseTheorems.SeededCountsStay | src/handlers/proxy/sse.rs:94-152 | without any report the seeded counts stay, and the recorded body size is the total length of the event chunks emitted before the record |
| SseTheorems.StreamEnds | src/handlers/proxy/sse.rs:216-297 | a stream whose upstream ends is over after a number of polls bounded by the length of the upstream's script |
| SseEndings.PollReads | src/handlers/proxy/sse.rs:216-297 | a poll of an open stream that no timer ends reads some chunks and then hands out the first segment if the buffer holds a boundary or too much, fails if that cannot be cut or the cap is exceeded, waits, flushes at end of file or hands on the upstream's error, as the script says |
| SseEndings.NextEndingIff | src/handlers/proxy/sse.rs:216-297 | which end the next poll takes, if and only if: the maximum duration, else the idle deadline, else shutdown with nothing to cut, else a chunk over the cap, a buffer without a line end, the end of file or the error met after the chunks read |
| SseEndings.EndingIsTheUpstreams | src/handlers/proxy/sse.rs:284-290 | a run ends at end of file only if that is the first stop of the script, ends on an error only if that error is, and hands that error out exactly then |
| SseEndings.EndsAsTheUpstream | src/handlers/proxy/sse.rs:216-297 | without deadlines or shutdown, with bytes and events inside their caps, a run polled often enough ends exactly as its script does, and its record says so |
| SseEndings.RecordNamesTheEnd | src/handlers/proxy/sse.rs:82-137 | status and error of the one record for every end, 499 for a stream dropped before its end |
| SseEndings.EndedStaysEnded | src/handlers/proxy/sse.rs:217-219 | after its end a stream changes nothing and answers every poll with the end |
| SseTail.MessagesArePreserved | src/handlers/proxy/sse.rs:154-167 | with any leftover at end of file that the rewriting leaves alone and in which no data line with a payload precedes a blank line, the client receives exactly the upstream's messages with rewritten data |
| SseTail.MessagesArePreservedIff | src/handlers/proxy/sse.rs:154-167 | for a run that ended at end of file, every rewriting that leaves the leftover alone reaches the client in all messages if and only if no data line with a payload precedes a blank line in the leftover |
| SseTail.RewriteIsKeptIff | src/handlers/proxy/sse.rs:54-79 | the same told from the upstream's bytes before the run: if no event exceeds the buffer, the condition is on what follows the last whole event |
| SseTail.TailIsUnfinished | src/handlers/proxy/sse.rs:154-167 | without forced cuts the leftover is what follows the last whole event of the upstream, however it was chunked |
| SseTail.HiddenBlankLineLosesRewrite | src/handlers/proxy/sse.rs:54-67 | a concrete stream whose last event the client receives unrewritten |
| SseRuns.RunKeepsInv | src/handlers/proxy/sse.rs:210-297 | conservation, consumption, well-cut segments, outputs matching segments and log-once hold after every run of polls |
| SseRuns.DropKeepsInv | src/handlers/proxy/sse.rs:200-208 | dropping the stream in any reachable state keeps that invariant, so it never writes a second record |
| SseRuns.ChunksAreOutput | src/handlers/proxy/sse.rs:94-167 | the chunks handed out by the polls of any run are, in order, the rewritten segments and the flushed leftover of its history |
| SseMeaning.RewriteKeepsMeaning | src/handlers/proxy/sse.rs:169-197 | rewriting the lines of a text leaves a parser in the state the original leaves it in with data values mapped, dropped blank lines included |
| SseMeaning.SegmentsKeepMeaning | src/handlers/proxy/sse.rs:94-101 | the same over any sequence of segments cut at line ends |
| SseMeaning.NoBomInOutput | src/handlers/proxy/sse.rs:169-197 | rewriting never puts a byte order mark at the head of the output |
| EventStream.RustLinesAreLines | src/handlers/proxy/sse.rs:177 | the line splitting the code uses and the standard's agree wherever CR occurs in CRLF only |
| EventStream.LinesCutAfterLf | src/handlers/proxy/sse.rs:71-79 | a stream cut after a line feed has the lines of its two halves: why forced cuts are safe |
| ByteStrings.Utf8CutAfterLf | src/handlers/proxy/sse.rs:169-172 | cutting valid UTF-8 after a line feed leaves both parts valid, so no cut makes an event unreadable |
| Utf8.ValidIffEncoded | src/handlers/proxy/sse.rs:169-172 | the byte strings read as text are exactly the encodings of sequences of Unicode scalar values |
| Boundaries.IncrementalScan | src/handlers/proxy/sse.rs:54-67 | scanning from a cursor finds what a rescan from the start would, if no boundary begins before the cursor |
| Boundaries.ScannedStaysClean | src/handlers/proxy/sse.rs:63-66 | after a scan without result no boundary begins before the length less three, whatever is appended |
| Boundaries.CutIsWhole | src/handlers/proxy/sse.rs:54-62 | the cut found takes one or more whole minimal events |
| Boundaries.CutIsOneEvent | src/handlers/proxy/sse.rs:54-62 | with one terminator kind it takes exactly one |
| Boundaries.MinimalEventsAppend | src/handlers/proxy/sse.rs:54-67 | whole events in front do not disturb the events of what follows |
| SseStream.SseTransformStream.FindEventBoundary | src/handlers/proxy/sse.rs:54-67 | the incremental scan returns what a rescan of the whole buffer would, and leaves a cursor that stays valid under any append |
| SseStream.SseTransformStream.ForceSplitOversized | src/handlers/proxy/sse.rs:71-79 | the cut of an oversized buffer, or the error, that the specification names |
| SseStream.SseTransformStream.TransformEvent | src/handlers/proxy/sse.rs:169-197 | the loop's output and the usage it keeps are the specification's for the event |
| SseStream.SseTransformStream.SplitEvent | src/handlers/proxy/sse.rs:94-101 | the new state and chunk are the specification's |
| SseStream.SseTransformStream.FinalizeLog | src/handlers/proxy/sse.rs:139-152 | one record with the attributed usage is appended to the log |
| SseStream.SseTransformStream.FailStream | src/handlers/proxy/sse.rs:82-92 | the failure is recorded once and the stream is over |
| SseStream.SseTransformStream.FinalizeStream | src/handlers/proxy/sse.rs:154-167 | one record, then the leftover as one rewritten chunk |
| SseStream.SseTransformStream.TimeoutStream | src/handlers/proxy/sse.rs:127-137 | the stream ends as a 504 with its leftover flushed |
| SseStream.SseTransformStream.PollNext | src/handlers/proxy/sse.rs:216-297 | one poll with the incremental cursor equals one poll of the rescanning specification, item and state |
| SseStream.SseTransformStream.Drop | src/handlers/proxy/sse.rs:200-208 | a 499 record unless the stream had ended |
| LogGuard.ProxyStreamed | src/handlers/proxy/exec.rs:200-365 | either a fresh stream and no record, or one record with the failure's status, error and seeded prompt count, cancellation at both awaits included |
| LogGuard.PollAndDrop | src/handlers/proxy/sse.rs:200-297 | a fresh stream polled by any script and dropped hands out the items of the specification's run and adds to the log what that run and drop log |
| LogGuard.ServeStreamed | src/handlers/proxy/exec.rs:247-364 | over the whole life of a streamed request, hand-off and polls after the end included, the log grows by exactly one record: that of the segments emitted and the exit taken or, if no stream was set up, that of the refusal with its status |
| LogGuard.StreamLeavesItsRecord | src/handlers/proxy/sse.rs:139-208 | that record is determined by the segments emitted and the exit taken |
| LogGuard.ProxyLogGuard.Finalize | src/handlers/proxy/guard.rs:78-91 | one record, its usage attributed with the seeded prompt count as fallback |
| LogGuard.ProxyLogGuard.Drop | src/handlers/proxy/guard.rs:102-111 | a 499 record exactly when none was written or handed over |
| LogGuard.ReadCapped | src/handlers/proxy/exec.rs:149-165 | a body is returned exactly when every chunk arrives and the total fits the cap, and then it is the concatenation |
| LogGuard.ProxyNonStreamed | src/handlers/proxy/exec.rs:77-197 | which calls are answered, with the rewritten body, its usage and the size read, and what the others come to: redirections refused unread, unreadable or oversized bodies 502 before the upstream's status counts, timeouts 408, a client gone no answer |
| LogGuard.ServeNonStreamed | src/handlers/proxy/mod.rs:371-446 | a non-streamed request, cancelled ones included, leaves exactly the one record of its outcome |
| KeyProtocol.NextKeepsInv | src/middleware.rs:106-137 | every single step of any lookup or handler keeps the protocol's invariant |
| KeyProtocol.RunKeepsInv | src/handlers/apikeys.rs:100-180 | so does every interleaving |
| KeyProtocol.GuardHolds | src/middleware.rs:106-126 | in no interleaving is a row cached that was read before a mutation committed by a lookup whose reload followed that mutation's bump |
| KeyProtocol.StaleOnlyIfStraddled | src/middleware.rs:114-126 | a cached row that differs from the table comes from a lookup that some mutation of the key straddled: committed after the read, removed before the insertion, not yet bumped at the reload |
| KeyProtocol.OutOfDateIffStraddled | src/middleware.rs:114-126 | an entry was read before some commit of its key exactly when a mutation straddled it, and equals the table otherwise |
| KeyProtocol.DeletedIsCachedIffStraddled | src/handlers/apikeys.rs:107-116 | a cached key has been deleted if and only if a delete of it straddled the lookup that cached it |
| KeyProtocol.NegativeIsNeverWrong | src/middleware.rs:129-136 | no interleaving leaves an existing key in the negative cache |
| KeyProtocol.CachesAreTheTable | src/middleware.rs:106-136 | in every interleaving a cached row that no mutation straddled is the one the commits alone leave, taken one after the other, and a key cached as invalid has none |
| KeyProtocol.UndisturbedLookupCaches | src/middleware.rs:106-136 | a lookup that nothing interrupts caches the row, or that there is none |
| KeyProtocol.UndisturbedDeleteClears | src/handlers/apikeys.rs:100-116 | a whole delete takes its key out of table and cache, changes nothing else of them, and moves the revision on |
| KeyProtocol.UndisturbedUpdateClears | src/handlers/apikeys.rs:137-180 | a whole update puts its row into the table, forgets both verdicts of its key and moves the revision on |
| KeyProtocol.DeletedKeyCanStayCached | src/handlers/apikeys.rs:107-116 | the concrete interleaving after which a deleted key is cached and every handler has finished |
| KeyCache.DecisionIsTheRow | src/middleware.rs:71-141 | in an agreeing state the decision by negative hit, positive hit or lookup is: accepted if and only if some row has the hash, is enabled and has no expiry at or before now |
| KeyCache.RunAgrees | src/handlers/apikeys.rs:100-180 | agreement survives every sequence of authentications, creations, updates, deletions and cleanups |
| KeyCache.AcceptedIffRowIs | src/middleware.rs:71-141 | after any run, at any time, a key is accepted if and only if some row has its hash, is enabled, and has no expiry or a later one |
| KeyCache.NewKeyWorksIffNotRejected | src/db/store/apikeys.rs:32-79 | a created key is judged by its row at once exactly when no live negative verdict names its hash |
| KeyCache.AuthState.GetByHash | src/db/store/apikeys.rs:100-114 | the lookup finds the one row with the hash, if there is one |
| KeyCache.AuthState.Authenticate | src/middleware.rs:44-141 | accepted if and only if some row has the hash, is enabled, and has no expiry or a later one; an accepted key is cached from now, and the caches stay in agreement |
| KeyCache.AuthState.DeleteKey | src/handlers/apikeys.rs:100-116 | the row and no other leaves the table, and from then on the key is refused at every time |
| KeyCache.AuthState.UpdateKey | src/handlers/apikeys.rs:137-180 | the row is changed field by field, no other is, and from then on the key is judged by it, a negative verdict notwithstanding: a disabled key is refused at every time, one given an expiry is accepted before it only |
| KeyCache.AuthState.CreateKey | src/handlers/apikeys.rs:32-62 | an enabled row is added and no other changed; the key is accepted at once and until it expires |
| KeyCache.AuthState.CleanupKeys | src/app.rs:203-220 | exactly the entries younger than five minutes stay, or half of that above nine tenths of the cap, and the negative ones younger than thirty seconds; agreement is kept |
| CappedCache.RefinesLru | src/handlers/proxy/resolve.rs:51-77 | under a strictly increasing clock the cached keys are the most recently touched distinct keys, as many as there are entries; without cleanups that number is the smaller of the cap and the keys touched |
| CappedCache.CapHolds | src/handlers/proxy/resolve.rs:57-77 | in every run, invalidation included and whatever the clock does, the size never exceeds the cap |
| CappedCache.MostRecentIsUnique | src/handlers/proxy/resolve.rs:66-74 | the n most recently touched keys are one set, so the previous result names a value |
| CappedCache.SameTouchesSameKeys | src/handlers/proxy/resolve.rs:66-74 | two runs with the same touches cache the same keys |
| CappedCache.StepStaysRecent | src/app.rs:203-231 | each lookup and each cleanup keeps the cache a most-recent set |
| CappedCache.InsertStaysCapped | src/handlers/proxy/resolve.rs:51-77 | an insertion caches its key if the cap allows any, invents nothing else and stays within the cap |
| CappedCache.CappedMap.InsertCapped | src/handlers/proxy/resolve.rs:51-77 | the in-place insertion removes an oldest entry when full and a new key arrives, and only then |
| CappedCache.CappedMap.OldestKey | src/handlers/proxy/resolve.rs:69-72 | the scan returns an entry no other is older than |
| ModelCache.CachesAgree | src/handlers/proxy/resolve.rs:85-179 | after any run a proxied request gets a model and provider if and only if both rows are there and enabled, and a client for that provider's current row |
| ModelCache.ReachableAgrees | src/handlers/providers.rs:259-297 | every reachable state has all three caches agreeing with the tables and within the cap |
| ModelCache.ResolvesAsJoin | src/handlers/proxy/resolve.rs:85-149 | whichever cache answers, the answer is the join |
| ModelCache.ConnectsToCurrentRow | src/handlers/proxy/resolve.rs:152-179 | the cached or new client is built from the provider's current row |
| ModelCache.UpdateModelKeepsAgreement | src/handlers/models.rs:193-203 | agreement survives updates, re-enabling and re-parenting |
| ModelCache.DeleteModelKeepsAgreement | src/handlers/models.rs:145-160 | agreement survives deletion although the negative cache is not touched |
| ModelCache.CreateModelKeepsAgreement | src/handlers/models.rs:97-106 | agreement survives creation although the model cache is not touched |
| ModelCache.CreateProviderKeepsAgreement | src/db/store/providers.rs:14-40 | a new provider changes no answer |
| ModelCache.ProviderChangedKeepsAgreement | src/handlers/providers.rs:259-263 | dropping one provider's client and models and all negative verdicts suffices for any change to that provider and its models, the cascading delete included |
| ModelProtocol.SpoilsIff | src/db/store/models.rs:173-211 | for each handler, whether it changes the answer for a name is decided by its arguments and the rows it finds: a creation that takes the free name enabled, an update or deletion of the row found, an update that makes the name resolvable |
| ModelProtocol.StraddledStoreAgreesIff | src/handlers/proxy/resolve.rs:116-144 | with one mutation between a lookup's read and its store, caches and tables agree afterwards if and only if the mutation's arguments do not spoil the answer read |
| ModelProtocol.MoveKeepsInv | src/handlers/proxy/resolve.rs:85-179 | every step of lookups and handlers keeps the invariant: a cached verdict was the answer when read and, if it still was when stored, is the answer now |
| ModelProtocol.ReachedKeepsInv | src/handlers/providers.rs:201-297 | so does every interleaving |
| ModelProtocol.StaleModelIsStraddled | src/handlers/proxy/resolve.rs:116-134 | a cached model that is not the join names a mutation between the read and the store of its lookup, and that mutation spoils the name |
| ModelProtocol.StaleUnknownIsStraddled | src/handlers/proxy/resolve.rs:135-144 | the same for a name cached as unknown that does resolve |
| ModelProtocol.StaleClientIsStraddled | src/handlers/proxy/resolve.rs:152-179 | a cached client built from an outdated row names a handler that changed the row between the read and the store |
| ModelProtocol.StoreIsStaleIff | src/handlers/proxy/resolve.rs:116-134 | in any run a store leaves a stale model exactly when the answer for its name is no longer the one read |
| ModelProtocol.DisabledModelCanStayCached | src/handlers/proxy/resolve.rs:116-134 | the concrete run after which every lookup and handler has finished, a disabled model is cached and the next lookup is answered with it |
| ModelCache.AppCaches.ResolveModelAndProvider | src/handlers/proxy/resolve.rs:85-149 | answered if and only if the named model and its provider are there and enabled, with their rows; the answer is cached, and agreement is kept |
| ModelCache.AppCaches.CachedUpstream | src/handlers/proxy/resolve.rs:152-179 | the client is for the current row and cached, and agreement is kept |
| ModelCache.AppCaches.Proxy | src/handlers/proxy/mod.rs:271-295 | both lookups in sequence answer from the current rows |
| ModelCache.AppCaches.CreateModelHandler | src/handlers/models.rs:76-106 | a missing provider is reported before a taken name, errors change nothing, else the row and no other is added; agreement is kept |
| ModelCache.AppCaches.UpdateModelHandler | src/handlers/models.rs:173-203 | a missing model or provider changes nothing, else the row is changed field by field and no other is; agreement is kept |
| ModelCache.AppCaches.DeleteModelHandler | src/handlers/models.rs:145-160 | the model and no other is gone from the table, it is gone from the cache, and agreement is kept |
| ModelCache.AppCaches.CreateProviderHandler | src/handlers/providers.rs:116-160 | a row is added and agreement is kept |
| ModelCache.AppCaches.UpdateProviderHandler | src/handlers/providers.rs:201-263 | the row is changed field by field, an empty api key clearing the stored one, and no other is; agreement is kept |
| ModelCache.AppCaches.DeleteProviderHandler | src/handlers/providers.rs:280-297 | the provider and exactly its models go, and agreement is kept |
| ModelCache.AppCaches.CleanupCaches | src/app.rs:203-231 | exactly the entries younger than their lifetime stay, which halves above nine tenths of the cap, and agreement is kept |
| BatchWorker.NothingAheadOfShutdownIsLost | src/db/logger.rs:278-344 | once a shutdown marker was received, every event sent ahead of it stands in the flushed batches exactly once, at its own place in the sending order |
| BatchWorker.TurnsConserve | src/db/logger.rs:278-344 | at every point, batches so far and the buffer hold the received events in order, through the timeout, full-batch, disconnect and shutdown flushes |
| BatchWorker.BufferIsBounded | src/db/logger.rs:319-328 | between turns less than a batch is buffered, no flush is empty, and size-triggered flushes are full |
| BatchWorker.ExitedIffTold | src/db/loki.rs:167-203 | the loop returns if it received a marker, and only then or on disconnect |
| BatchWorker.ConsumedIsDelivered | src/db/logger.rs:278-344 | the loop takes from the channel all that its turns deliver, in order, up to the first turn with a marker or a disconnect, and returns exactly there |
| BatchWorker.TimeoutFlushes | src/db/logger.rs:278-344 | a receive that times out leaves nothing buffered but what is drained after it |
| LogWorker.TablesHoldWhatWasWritten | src/db/logger/writes.rs:13-31 | over every sequence of flushes the rows past all retention cutoffs used are exactly those of the successful batches, in order |
| LogWorker.WrittenAreBatches | src/db/logger/writes.rs:13-31 | written batches are flushed batches in order: none invented, repeated or split |
| LogWorker.RetentionEveryNth | src/db/logger/writes.rs:20-25 | retention has run once per `retention_every` successful counted flushes, and never when that is zero |
| LogWorker.RetentionDeletes | src/db/logger/writes.rs:13-31 | a successful flush that makes the counter a multiple of `retention_every` leaves, in each table whose delete succeeds, exactly the rows past the cutoff, each as often as before and in order; every other flush deletes nothing |
| LogWorker.FailedRollbackStopsWriting | src/db/logger/writes.rs:75-79 | after a failed rollback no later flush writes anything |
| LogWorker.ShutdownWritesEverything | src/db/logger.rs:260-344 | when the worker returned on a marker and no flush failed, each table holds every unexpired received event of its kind, in order |
| LogWorker.ShutdownKeepsEveryEvent | src/db/logger.rs:260-344 | event by event: each received one past the cutoff stands in its own table exactly as often as it was received, and in no other |
| LogWorker.Worker.FlushEvents | src/db/logger/writes.rs:42-81 | the partition and the three appends in one transaction do what the specification says, and the result tells whether they all landed |
| LogWorker.Worker.FlushBuffer | src/db/logger/writes.rs:13-31 | the buffer becomes one journaled batch and is cleared, with the counter and retention in step |
| LogWorker.Worker.Round | src/db/logger.rs:278-344 | one turn of the loop is one step of the specification |
| LogWorker.Worker.WorkerLoop | src/db/logger.rs:260-345 | the loop over any script of receives is the specification's run |
| WorkerPool.NextKeepsInv | src/db/analytics.rs:257-335 | each blocking step of workers and shutdown callers keeps the pool's invariant |
| WorkerPool.NoDeadlock | src/db/analytics.rs:406-418 | while a shutdown call has not returned some step other than a new request can be taken, with any number of concurrent calls |
| WorkerPool.SubmittedIsQueued | src/db/analytics.rs:346-364 | while a worker lives the log holds every request submitted so far, once |
| WorkerPool.RunIsBounded | src/db/analytics.rs:257-335 | a run takes at most the initial measure plus five steps per new request |
| WorkerPool.ShutdownEndsUnderTraffic | src/db/analytics.rs:406-418 | from any point at which the log holds one marker per worker, the steps of workers and callers are bounded by what remains then, whatever is submitted afterwards |
| WorkerPool.ShutdownIsBounded | src/db/analytics.rs:406-418 | once N markers are in the log such a point exists, and the bound is at most the measure of the pool |
| WorkerPool.ShutdownSettlesEverything | src/db/analytics.rs:406-418 | when a call has returned every worker is gone, every request sent before the N-th marker was taken and replied to, and any other had its reply sender dropped |
| WorkerPool.OneMarkerPerWorker | src/db/analytics.rs:321-330 | no worker takes two markers |
| WorkerPool.FinishedRunsAreSettled | src/db/analytics.rs:153-335 | every run that can go no further has all calls returned, all workers gone and all requests settled |
| Loki.PayloadIsPermutation | src/db/loki.rs:305-340 | the values of all streams together are the entries of the batch's non-marker events, each exactly as often |
| Loki.EventsAreCarried | src/db/loki.rs:305-340 | every event of the batch that is no marker is in a stream with its own labels, with its line and its instant, zero if that is no 64-bit number of nanoseconds |
| Loki.EntriesAreEvents | src/db/loki.rs:305-340 | every entry of a stream tells of an event of the batch that has the stream's labels |
| Loki.StreamsAreStable | src/db/loki.rs:321-333 | each stream ascends, keeps batch order within one instant, and holds only events of its own label set |
| Loki.SharedLabelsIff | src/db/loki.rs:263-290 | two events get the same label set exactly when they agree on kind and on every bounded field, whatever the static labels |
| Loki.LabelsAreTags | src/db/loki.rs:263-290 | each label an event gets has the value of its field, and every static label that none of them overrides stays |
| Loki.StableSortIsUnique | src/db/loki.rs:325 | a stable sort has one result, so the reference sort stands for the library's |
| Loki.BuildPushPayload | src/db/loki.rs:305-340 | one stream per occurring label set, pairwise distinct, each the stable sort of its own events |
| Dlp.Scan | src/dlp.rs:64-82 | a body is blocked if and only if the scanner is on and some path of the body leads to a string, or to a number if those are scanned, in which some rule occurs; the value returned is such a rule, and the first configured one unless some splice of two rules misses |
| Dlp.AlwaysLowestIff | src/dlp.rs:113-125 | the first configured rule is named on every text under every choice of the matcher if and only if it is on the finitely many texts made of one rule's head and another rule |
| Dlp.AllAreReported | src/dlp.rs:113-125 | when distinct rules cannot overlap every rule that occurs is reported |
| Dlp.NoOverlapNoMiss | src/dlp.rs:113-125 | such lists never miss the first configured rule |
| Dlp.LowestCanBeMissed | src/dlp.rs:64-67 | the two rules and the text on which it is missed |
| Dlp.ReportsIffOccurs | src/dlp.rs:113-125 | non-overlapping matching reports something exactly when some rule occurs |
| Dlp.FindIterExists | src/dlp.rs:115 | the matcher's specification has a report for every text |
| Dlp.ScanText | src/dlp.rs:113-125 | the result is the least of the rule so far and all reported rules, early return included |
| Dlp.ScanValue | src/dlp.rs:84-111 | the result is the least of the rule so far and all rules reported in texts that paths of the value lead to, whatever the order of visits and despite both early exits |
| Dlp.LeafIffAtPath | src/dlp.rs:84-111 | the leaves scanned are exactly the strings, and the numbers if they are to be, that some path leads to; keys never are |
| Dlp.NewScanner | src/dlp.rs:32-47 | empty values are dropped, and the scanner is on exactly when enabled with an automaton and a value left |
| Cidr.MaskTestIsQuotientTest | src/ssrf.rs:308-326 | for every length of every width the shift-and-mask test is equality of quotients by 2^(width - length) |
| Cidr.PrefixIsAlignedRange | src/ssrf.rs:308-326 | a prefix is an aligned range of 2^(width - length) consecutive values inside the width |
| Cidr.RangeIsAddresses | src/ssrf.rs:308-326 | every value of that range is an address of the prefix |
| Cidr.NestedOrDisjoint | src/ssrf.rs:308-326 | of two prefixes of a family the longer lies in the shorter or they share nothing |
| Addresses.EmbeddingsShareVerdict | src/ssrf.rs:181-218 | every decoded IPv6 form of an IPv4 address gets the plain address's verdict under every allow list |
| Addresses.DecodesIffEmbedding | src/ssrf.rs:199-218 | exactly the mapped, compatible and NAT64 forms are decoded |
| Addresses.AllowedIsInvariant | src/ssrf.rs:181-189 | the verdict does not change when the address is normalized first |
| Addresses.ReachesIffNormalized | src/ssrf.rs:199-218 | decoding gives the one address that is reached: the IPv4 address of a mapped, compatible or NAT64 form, and any other address itself |
| Addresses.InPrefixIffTopAgrees | src/ssrf.rs:296-306 | a prefix holds an address of its family if and only if their top bits agree as written, and one of the other family if and only if those of the IPv4 addresses both reach do |
| Addresses.BlockedV4IffInRange | src/ssrf.rs:227-240 | the octet tests block exactly eight prefixes |
| Addresses.BlockedV6IffInPrefix | src/ssrf.rs:242-256 | the segment masks block exactly fc00::/7 and fe80::/10 |
| Addresses.V4EntryIsInvariant | src/config.rs:48-56 | an IPv4 entry trusts a peer however its address is written |
| Addresses.MappedEntryMissesPlainPeer | src/config.rs:48-56 | the concrete IPv6 entry that does not |
| Addresses.EntryIsInvariantIff | src/ssrf.rs:296-306 | for every IPv6 entry: it judges every peer alike however the address is written if and only if, embedding an IPv4 address, its length is zero, or, embedding none, its bits differ from those of all three embeddings |
| Addresses.MeetsEmbeddingIff | src/ssrf.rs:199-218 | that bit condition holds exactly when no embedded address lies in the entry |
| Addresses.IsAllowed | src/ssrf.rs:181-189 | allowed if and only if the IPv4 address embedded, or else the address itself, fits an entry or lies outside every blocked range by its top bits; a bare entry fits the address it reaches, a sized one of valid length those that agree with it in the top bits |
| JsonRename.RenamedLacksReasoning | src/providers/ollama.rs:15-33 | after the rewrite no object at any depth has the key |
| JsonRename.UnchangedIffLacking | src/providers/ollama.rs:15-33 | the rewrite changes a value exactly when the key occurs in it |
| JsonRename.RenameIsIdempotent | src/providers/ollama.rs:15-33 | a second rewrite changes nothing |
| JsonRename.RestIsUnchanged | src/providers/ollama.rs:15-33 | the value at every path of the result is the rewrite of the value it came from, so that only renamed and displaced entries differ |
| JsonRename.RewriteIsIdempotent | src/providers/ollama.rs:37-44 | the composed shadowing and renaming is idempotent |
| JsonRename.RewrittenShadows | src/providers/mod.rs:13-21 | the shadowed model name and fingerprint survive the rename |
| JsonRename.InjectedKeepsRest | src/providers/mod.rs:13-21 | shadowing leaves the value at every path under another key as it is, and a body that is no object altogether |
| JsonRename.RewrittenKeepsRest | src/providers/mod.rs:13-21 | under every key but the two shadowed the rewritten body is the renamed one |
| JsonRename.RenameReasoningKey | src/providers/ollama.rs:15-33 | the remove, insert and recurse loops compute the rewrite |

## Left out

- SseTheorems.MeaningIsPreserved: stated for runs that end at end of file with an empty buffer; `SseTail` covers a leftover, for dispatched messages only, because the leftover is rewritten as one body, and says exactly when they are preserved.
- SseTail.MessagesArePreserved: requires the leftover to be left alone by the rewriting; a leftover that is itself a JSON body is rewritten by design.
- SseStream.SseTransformStream.PollNext: timers are flags of a poll; wake-ups, latency and time to first token are not modelled, and byte counts do not wrap.
- LogGuard.ServeNonStreamed: the error text is a parameter; truncation to 512 bytes, reason phrases and response headers are not modelled.
- KeyProtocol.GuardHolds: keys are random, so a created hash was never offered before; hashing is injective; a table access is one step, so its 30 s timeout and a storage error are not modelled.
- KeyCache.AcceptedIffRowIs: whole handlers are steps; the token header, name validation, the permit semaphore is not modelled.
- CappedCache.RefinesLru: handler invalidation is excluded, since removing a recent key leaves an older one cached; `CapHolds` includes it. Sharded, concurrently approximate map lengths are not modelled.
- ModelCache.CachesAgree: whole requests are steps; row timestamps, field validation, storage failures other than constraint violations and the DNS and pinned-client caches are not modelled.
- ModelProtocol.StaleModelIsStraddled: a handler commits and invalidates as one step, so what a lookup meets between the two is not modelled.
- LogWorker.TablesHoldWhatWasWritten: a commit that fails is taken to leave nothing, and beginning inside an open transaction to fail, as DuckDB does; the watchdog's interrupt is one of the possible failures.
- LogWorker.ShutdownWritesEverything: events that a full channel rejects were never sent; the bounded wait for delivering the marker is not modelled.
- WorkerPool.ShutdownSettlesEverything: queries end, as the watchdog ensures; timeouts on the caller's side, the query text and lock poisoning are not modelled.
- Loki.BuildPushPayload: the order of the streams in the payload, JSON serialization and the push itself are not modelled; the worker loop is `BatchWorker`'s.
- Dlp.Scan: the automaton is specified as repeated earliest-ending matches with any choice among ties; its construction is not modelled.
- Addresses.IsAllowed: parsing of addresses and entries is a parameter; DNS resolution and the pinned client are not modelled.
- JsonRename.RenameReasoningKey: builds a new tree where the code edits in place, so aliasing is not modelled; parsing and serialization are not modelled, and `parse_usage` is a parameter of the stream.
- The order of JSON object members is not modelled; neither the scan nor the rename depends on it.
- HTTP, TLS, routing, configuration loading, the reader pool's lock order, the analytics SQL, the query watchdog and the frontend are not modelled.
