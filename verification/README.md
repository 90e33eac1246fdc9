# Hostely verification

A Dafny model of the stateful core of hostely, with proofs about it. `dafny verify dfyconfig.toml` checks everything.

Each part has the same shape: datatypes and functions give the state and what one operation does to it, lemmas prove what
every run keeps, and, where the source is a class or a loop, a class or method with the source's own fields and loops is
proved equal to those functions.

- **Session KV cache** (`SeqAllocator`, `SessionTable`, `KvCache`, `Completion`, `SessionIds`, `Histories`,
  `Prefilling`, `Streaming`, `CompletionTheorems`, `ServerRuns`, `Replies`, `SessionOrder`, `ContextWindow`,
  `ServerExamples`, `Server`). Sequence ids, the LRU table of token histories, and `complete_stream`. The cache maps a sequence id to cells
  (position, token); decoding appends, `seq_rm` truncates, and sampling is a function of the context whose logits were
  computed last. The simple form is greedy decoding of the prompt without any cache; the theorems say exactly when a
  request gives the same reply, in any state.
  A *level* tells how a session's sequence stands to its recorded history: with none the two agree, and at level `d` they
  agree below position `d`, where the sequence has a cell too many. Levels are computed from the requests alone, and over
  every run, whatever fails, they describe every live session.
- **Yamux multiplexer** (`YamuxCodec`, `YamuxParser`, `YamuxGuard`, `YamuxEndpoint`, `YamuxSystem`, `YamuxNet`,
  `YamuxReads`, `YamuxMux`). The frame header, the incremental parser, one endpoint, and two endpoints joined by byte channels. A run is
  any sequence of public calls and of `recv`s of any size on either side. A `write` larger than one data frame that is
  interleaved with other calls is a run of smaller writes.
- **Compose reconciler** (`Compose`, `TopoSort`, `Ports`, `Reconcile`, `Commands`, `PortRecords`, `AppUp`). The topological
  sort, and the reconcile loop over a container runtime, a state file and a port pool, with every external call free to fail.
- **Compose reader** (`ComposeText`, `ComposeParser`, `ComposeReader`, `ComposeRoundTrip`, `ComposeInlineItems`,
  `ComposeMisreads`, `Interpolation`). The indentation-driven parser, which the functions define for every list of lines, and the template
  evaluator.
- **Log rotation** (`LogRotation`, `Logger`). The log directory as a map from names to contents.

## Where the code and its comments differ

The model follows the code. These are the places where a promise is not kept, each with the exact condition proved and,
where one fits in a few lines, an input that shows it.

- `take` says that a full sweep finds any freed slot; it looks at `max - 1` slots, so the cursor's predecessor is missed
  (`TakeExact`). When the evicted session held just that id, the new session is refused although one was evicted
  (`NewSessionRefusedExactly`); for every number of sequences a run of ordinary requests leads there
  (`EvictedForNothing`). A pool of just two sequences never makes a second session (`OneSessionEver`); that concerns the
  allocator class only, as `load_model` asks for 32 (src/inference/server.cpp:95).
- `SeqAllocator` raises its maximum to 2 but sizes `in_use_` by the argument, so with fewer than two sequences `take`
  would index past the vector (`SeqAllocator.constructor`).
- A prompt that is wholly cached is continued from the logits of whatever was decoded last (`RefinesExactly`; a
  run for every context of at least three tokens: `StaleLogitsAnswer`).
- A prefill that fails after its first batch leaves the KV sequence longer than the session's token history
  (`ServeKeeps`; for every prompt of more than one batch that fits the context: `PartWayFailure`). What later requests
  make of that is exact as well (`ServeHolds`, `RepairedExactly`).
- The context bound adds in 32 bits, so a negative `max_tokens` lets an oversized prompt through (`FitsContextExactly`,
  `CompleteFitsExactly`, `OversizedPromptPasses`).
- The 8 MiB guard looks at the bytes left over. Frames of up to one byte more than the limit pass however they are cut,
  frames of up to one `recv` more pass for some cuts only, and larger ones never (`EveryCutSurvivesExactly`,
  `SomeCutSurvivesExactly`).
- A failed `app_up` keeps the old state file on the grounds that it still describes the running containers; that holds
  exactly if none of the services before the first that cannot start is recreated with a configuration the file does not
  have, and likewise when the file cannot be written (`UnrecordedRunExactly`, `FailureLeavesStaleState`). Which service
  that is can be told before the run (`RunReaches`). With a stale file some run does not converge (`SyncIsExact`).
- Ports are picked among those neither in use nor picked, so a new service may be given the recorded port of a service
  that was stopped and kept (`RecordedPortsDistinctExactly`, `RecordedPortsClash`). It is safe whatever it wants exactly
  if all ports held are in use or claimed when its turn comes (`NewServiceIsSafeExactly`).
- The keys after the first of an inline `- key: value` item are parsed before the position moves past their line, so a key
  with a nested value becomes a mapping that contains itself and all keys after it, and the line after the item is
  swallowed, with it the next item (`InlineSequenceExactly`, `TwoItemsMerge`).
- A key without a value is taken for one with a nested value whenever the next line is off the left margin and looks like
  a key or an item, however deep it stands: off the margin the key takes all entries after it (`NullExactly`,
  `NullEntryExactly`).
- A block ends at the first line with another indentation, a deeper one included. At the top level that ends the parse,
  and whatever follows is dropped without an error (`StrayLineEnds`).
- Doubled quotes of either kind collapse inside quotes of either kind, so quoted text keeps its meaning unless two quotes
  of the other kind meet in it (`UnquoteInvertsQuoteExactly`).
- `${V-d}` uses its default for an empty variable as well as for an unset one; the Compose Specification, section
  "Interpolation", reserves that for `${V:-d}` (`DashedExactly`). `${V:?message}` asks for a variable of that whole name
  instead of `V` (`RequiredExactly`).
- After a rotation the line that caused it is not counted, so a file may exceed the limit by just less than that line
  (`RotatedFilesAreBounded`, `BoundIsAttained`); only after an empty line, which the logger never writes, can it not
  (`StaysBelowExactly`). With `keep_files` zero one rotated file is kept all the same (`RotatedExact`).

## Model

| member | source | states |
|---|---|---|
| SeqAllocation.TakeExact | src/inference/session.cpp:14-27 | `take` fails iff every id but 0 and the cursor's predecessor is in use; otherwise it hands out the cyclically first free id, which becomes the slot the next scan misses |
| SeqAllocation.RetryAfterGiveBack | src/inference/server.cpp:455-467 | with all ids in use, the retry after an eviction returns the evicted id unless it is the cursor's predecessor |
| SeqAllocation.ScanExact | src/inference/session.cpp:17-26 | from every point of the scan on: what is found is the nearest free id not yet passed |
| SeqAllocation.SeqAllocator.constructor | src/inference/session.cpp:11-12 | the pool is well formed iff at least two sequences were asked for |
| SeqAllocation.SeqAllocator.Take | src/inference/session.cpp:14-27 | the scanning loop hands out and records what `TakeExact` describes |
| SeqAllocation.SeqAllocator.GiveBack | src/inference/session.cpp:29-33 | frees an id in range and ignores any other |
| SessionTables.TimestampsAreLru | src/inference/session.cpp:41-104 | over any run of operations the sessions evicted by timestamp are those a textbook LRU list evicts, in order |
| SessionTables.StepRefinesList | src/inference/session.cpp:41-104 | each single operation moves the timestamps as the LRU list moves its entries |
| SessionTables.VictimIsFront | src/inference/session.cpp:92-96 | the least timestamp belongs to the front of the recency list, whichever minimum is picked |
| SessionTables.SessionTable.constructor | src/inference/session.cpp:39 | an empty table of the given capacity |
| SessionTables.SessionTable.Find | src/inference/session.cpp:41-46 | finds a session by id and makes it the most recent, or changes nothing |
| SessionTables.SessionTable.Insert | src/inference/session.cpp:53-72 | evicts a least recently used session iff the table is full and the id new, reports its sequence, and adds an empty session |
| SessionTables.SessionTable.FindByPrefix | src/inference/session.cpp:74-88 | returns a longest non-empty history that is a prefix of the prompt, or nothing iff there is none |
| SessionTables.SessionTable.EvictLru | src/inference/session.cpp:90-100 | removes a least recently used session and reports its sequence; nothing on an empty table |
| SessionTables.SessionTable.LeastRecentlyUsed | src/inference/session.cpp:92-96 | the minimum over a map visited in any order |
| SessionTables.SessionTable.Touch | src/inference/session.cpp:102-104 | stamps one session with the current time |
| SessionTables.SessionTable.SetTokens | src/inference/server.cpp:653-657 | replaces one session's history and nothing else |
| KvCaches.SeqRmTruncates | src/inference/server.cpp:499-503 | truncating a coherent sequence at position k leaves its first k tokens |
| KvCaches.SeqRmClears | src/inference/server.cpp:505-508 | removing from -1 on empties the sequence |
| KvCaches.DecodeConcat | src/inference/server.cpp:553-569 | decoding two batches is decoding their concatenation |
| KvCaches.FeedToFeeds | src/inference/server.cpp:553-569 | feeding appends exactly the fed tokens at their positions, leaves other sequences alone, and renews the logits iff the prompt's last token was fed |
| Completion.Lcp | src/inference/server.cpp:494-498 | a common prefix that cannot be extended |
| Completion.RunPrefill | src/inference/server.cpp:552-573 | success means all was fed, failure that a decode failed and less was fed |
| SessionInvariants.DistinctIdsCount | src/inference/session.hpp:48-51 | sessions with distinct ids use as many ids as there are sessions |
| SessionInvariants.InsertNeverEvicts | src/inference/server.cpp:470-475 | while an id is free the table is not full, so the eviction after `insert` is unreachable |
| SessionInvariants.EvictKeepsIds | src/inference/server.cpp:459-464 | evicting keeps ids in use and session ids the same set, and frees the victim's |
| SessionInvariants.EvictKeepsFree | src/inference/server.cpp:459-464 | evicting leaves the freed id's sequence empty |
| SessionInvariants.AdmitAfterTake | src/inference/server.cpp:467-477 | after a successful `take` a new session enters with no history and nobody leaves |
| SessionInvariants.ResolveKeepsIds | src/inference/server.cpp:447-482 | resolving a session keeps ids in use and session ids the same set, whatever is evicted or picked |
| SessionInvariants.ResolveSpares | src/inference/server.cpp:447-482 | it leaves every session but the evicted one as it was |
| SessionInvariants.ResolveKeepsFree | src/inference/server.cpp:447-482 | it keeps free ids empty, and a new session enters with no history on an empty sequence |
| SessionInvariants.ResolveKeeps | src/inference/server.cpp:447-482 | so it keeps all sessions coherent |
| Histories.LevelIsIncoherent | src/inference/session.hpp:44 | a sequence with a level differs from its history |
| Histories.HeldCut | src/inference/server.cpp:499-503 | truncating at or below the level repairs a sequence, truncating above leaves the level |
| Histories.HeldFed | src/inference/server.cpp:553-569 | feeding what is recorded changes no level |
| Histories.HeldUnrecorded | src/inference/server.cpp:570-573 | feeding what is not recorded brings in a level at the end of the history |
| CompletionTheorems.TrimReusesPrefix | src/inference/server.cpp:484-509 | after trimming, the sequence holds exactly the common prefix, and the history says so |
| CompletionTheorems.GenerateIsReference | src/inference/server.cpp:586-646 | from the prompt's logits and sequence the generate loop equals cache-free greedy decoding |
| CompletionTheorems.GenerateUntilFailure | src/inference/server.cpp:595-600 | a decode that fails acts as a smaller budget: the tokens before it are those of cache-free decoding |
| CompletionTheorems.DecodedIsMade | src/inference/server.cpp:607-659 | the reply made of a generation is the text of all its tokens and one piece for each, none for a token that completes a stop sequence |
| CompletionTheorems.GenerateHolds | src/inference/server.cpp:586-646 | generating neither spoils nor repairs a sequence, stop sequences included |
| CompletionTheorems.GenerateSpares | src/inference/server.cpp:593-597 | generating touches no other sequence |
| CompletionTheorems.AnswerEffect | src/inference/server.cpp:528-660 | what prefill, generation and persistence leave of a coherent session, on success and on failure |
| CompletionTheorems.AnswerHolds | src/inference/server.cpp:528-660 | what they leave of a session at any level |
| CompletionTheorems.AnswerReply | src/inference/server.cpp:580-660 | with the prompt's own logits the reply, its text and pieces included, is that of cache-free decoding |
| CompletionTheorems.ServeOnlyOwn | src/inference/server.cpp:484-660 | whatever the cache holds, a request changes its own session and sequence and nothing else |
| CompletionTheorems.ServeEffect | src/inference/server.cpp:484-660 | the effect of a whole request on a coherent session, in all three outcomes |
| CompletionTheorems.ServeHolds | src/inference/server.cpp:484-660 | what a request makes of its session's level, exactly |
| CompletionTheorems.ServeKeepsIds | src/inference/server.cpp:484-660 | ids and the empty sequences of free ids are kept, coherent or not |
| CompletionTheorems.ServeKeeps | src/inference/server.cpp:484-660 | coherence of all sessions is kept iff no session prefill decodes its first batch and fails on a later one |
| ServerRuns.CompleteKeepsIds | src/inference/server.cpp:415-660 | `complete_stream` conserves ids and keeps free ids empty, whatever fails |
| ServerRuns.CompleteKeeps | src/inference/server.cpp:415-660 | and keeps all sessions coherent iff it does not fail part-way |
| ServerRuns.OtherSessionsUntouched | src/inference/server.cpp:447-526 | a request changes no history and no sequence but its own and the evicted one's |
| ServerRuns.PicksExactly | src/inference/session.cpp:74-88 | the fallback finds a session iff some non-empty history begins the prompt, and then one that extends all others that do |
| ServerRuns.RefusedLeavesNothing | src/inference/server.cpp:511-526 | a request refused for its length replies nothing and leaves its sequence and its history empty |
| ServerRuns.PickTrimsNothing | src/inference/server.cpp:478-498 | a session picked by prefix is reused whole, and no other session would save more |
| ServerRuns.AnswersLikeReference | src/inference/server.cpp:484-660 | in any state, a request that reuses its sequence cleanly and feeds a token is answered as by cache-free decoding, text and pieces included |
| ServerRuns.CachedRefinesStateless | src/inference/server.cpp:484-660 | such a session request and the stateless run on sequence 0 give the same reply, in any two states |
| ServerRuns.StaleLogitsDiverge | src/inference/server.cpp:586-591 | from other logits than the prompt's, some model generates other tokens |
| ServerRuns.SpoiltSequenceDiverges | src/inference/server.cpp:586-603 | from a sequence that is not the prompt's, some model generates other tokens from the second on |
| ServerRuns.PrefilledExactly | src/inference/server.cpp:535-578 | sequence and logits when generation begins, by what was reused and fed |
| ServerRuns.RefinesExactly | src/inference/server.cpp:484-660 | in any state whatsoever, all models answer as without a cache iff a token is fed after clean reuse, or the left-over logits are the prompt's and the reuse is clean or one token is asked for, or nothing is generated |
| ServerRuns.NewSessionRefusedExactly | src/inference/server.cpp:454-478 | when a new session is turned away although one may have been evicted |
| ServerRuns.ResolvesTo | src/inference/server.cpp:447-482 | a request works on the session it names unless that is refused; naming none, on the one picked if the fallback is allowed, else on none |
| ServerRuns.ServedPositionsFit | src/inference/server.cpp:511-526 | after one request on a coherent session its positions are consecutive from 0 and below `n_ctx`, given the exact bound |
| ContextWindow.RunFits | src/inference/server.cpp:511-646 | over every run, whatever fails, no cell of any sequence, spoilt ones included, reaches `n_ctx`, if no request with a negative `max_tokens` has a prompt longer than the context |
| ContextWindow.CompleteFitsExactly | src/inference/server.cpp:511-646 | that guard is exact: a request that is carried out and feeds a token keeps the cache within the context iff it meets the guard |
| SessionOrder.RunListed | src/inference/server.cpp:447-482 | over every run of requests, whatever fails, the times of last use order the sessions as an LRU list that each request moves or takes from |
| SessionOrder.EvictedIsFront | src/inference/server.cpp:455-464 | the session evicted for a new one is the front of that list |
| ServerRuns.RepairedExactly | src/inference/server.cpp:484-526 | the next request repairs a spoilt session iff it outgrew the context, or its prompt leaves the history at or below the level and it does not itself fail part-way; else, unless it fails so, the cell too many stays |
| ServerRuns.CompleteTracks | src/inference/server.cpp:415-660 | every request moves the levels of all sessions as computed |
| ServerRuns.RunTracks | src/inference/server.cpp:415-660 | so does every run, whatever fails |
| ServerRuns.RunKeepsIds | src/inference/server.cpp:415-660 | over every run, whatever fails, the ids in use are the live sessions' and free ids have empty sequences |
| ServerRuns.CoherentExactly | src/inference/session.hpp:36-46 | a session's sequence is its history iff it has no level |
| ServerRuns.SessionStaysCoherent | src/inference/server.cpp:415-660 | a session whose own prefills never failed part-way is coherent, whatever happened to others |
| ServerRuns.RunKeepsInvariant | src/inference/server.cpp:415-660 | over runs without part-way failures all sessions are coherent |
| ServerRuns.ReusesCleanlyExactly | src/inference/server.cpp:484-509 | reuse is clean iff the trimmed history has no level |
| ServerRuns.EveryReachableStateRefines | src/inference/server.cpp:119-122 | from the state `load_model` sets up, after any run, a request that feeds a token and reuses a history without level, or none, is answered as by a fresh stateless server |
| Replies.ReplyExactly | src/inference/server.cpp:580-659 | in any state and whatever fails: the text is that of all tokens generated, no stop sequence stands in the text of fewer, and the pieces are those of all tokens but one that completes a stop sequence |
| Replies.ReplyPiecesExactly | src/inference/server.cpp:607-649 | the pieces join to the text of the tokens streamed iff detokenizing only extends it; to the reply's text when no stop sequence ended it |
| Replies.FailedDecodeEndsReply | src/inference/server.cpp:595-600 | a request whose generation fails at some decode is answered by cache-free decoding up to there |
| ServerExamples.StaleLogitsAnswer | src/inference/server.cpp:484-591 | for every number of sequences and every context of at least three tokens: a run of three requests under one model whose last reply is wrong |
| ServerExamples.EvictedForNothing | src/inference/server.cpp:454-478 | for every number of sequences: a run after which a request for any new session evicts another one and is refused all the same |
| ServerExamples.OneSessionEver | src/inference/session.cpp:14-27 | a pool of two sequences creates no session after the first, over every run |
| ServerExamples.PartWayFailure | src/inference/server.cpp:553-573 | in every configuration, any prompt of more than one batch that fits the context and whose second batch fails leaves a new session incoherent, ids conserved |
| Streaming.StreamExact | src/inference/server.cpp:631-643 | the pieces join to the text if detokenizing only ever extends it, and are longer than the text otherwise |
| Streaming.PiecesJoinExactly | src/inference/server.cpp:607-649 | the pieces of a reply join to the text generated, or of all but the last token after a stop sequence, iff detokenization is prefix-monotone |
| Streaming.StreamIsPieces | src/inference/server.cpp:631-643 | the pieces depend on the texts of the tokens so far only: the new end, or all again when it was not only extended, or nothing |
| Streaming.HitsStopExactly | src/inference/server.cpp:614-624 | a stop sequence is hit iff a non-empty one stands somewhere in the text |
| Prefilling.BatchesCover | src/inference/server.cpp:535-569 | batches are non-empty, at most `n_batch` long, and feed each remaining token once in order |
| Prefilling.BatchCountRoundsUp | src/inference/server.cpp:538-540 | the number of batches is the feed divided by the chunk, rounded up |
| Prefilling.BatchesAreFull | src/inference/server.cpp:535-569 | all batches of a prefill but the last have `n_batch` tokens |
| Prefilling.FailsLaterExactly | src/inference/server.cpp:552-573 | a prefill fails with something fed iff the first of its batches decodes and a later one does not |
| Prefilling.BatchedIsTokenByToken | src/inference/server.cpp:535-569 | batched prefill equals token-by-token prefill in cache and logits |
| Prefilling.FitsContextExactly | src/inference/server.cpp:511-526 | prompt and generation stay below `n_ctx` iff `max_tokens` is not negative or the prompt alone fits |
| Prefilling.BudgetExactly | src/inference/server.cpp:511-526 | the bound in whole numbers: a sum inside the window is granted, anything else gets all that is left of the window or is refused |
| Prefilling.OversizedPromptPasses | src/inference/server.cpp:511-517 | a concrete prompt longer than the context that is not refused |
| Servers.Server.constructor | src/inference/server.cpp:119-122 | `load_model` sets up the initial state |
| Servers.Server.ResolveSession | src/inference/server.cpp:447-482 | find, take, evict, retry, insert and prefix fallback, as the specification resolves |
| Servers.Server.TrimSession | src/inference/server.cpp:484-509 | the prefix loop and the truncation, as the specification trims |
| Servers.Server.FeedBatch | src/inference/server.cpp:553-569 | filling the batch buffer and decoding it feeds the next tokens, or on failure none |
| Servers.Server.FeedNext | src/inference/server.cpp:553-569 | one turn of the chunked loop |
| Servers.Server.PrefillPrompt | src/inference/server.cpp:535-573 | the chunked loop hands over the batches in order up to the first failure, and feeds those before it |
| Servers.Server.GenerateTokens | src/inference/server.cpp:580-646 | the generate loop: tokens, cache, stop sequences and streamed pieces |
| Servers.EmitPiece | src/inference/server.cpp:631-643 | one `on_token` call, resend included |
| Servers.HitsAnyStop | src/inference/server.cpp:616-624 | true iff some non-empty stop sequence occurs in the text |
| Servers.Server.AnswerRequest | src/inference/server.cpp:528-660 | prefill, generate and persist, as the specification answers |
| Servers.Server.CompleteStream | src/inference/server.cpp:415-660 | the whole request: new allocator, table and cache, and the reply |
| YamuxCodec.ParseInvertsEncode | src/tunnel/yamux.cpp:111-122 | a frame sent is the frame parsed, whatever follows |
| YamuxCodec.HeaderLayout | src/tunnel/yamux.cpp:113-118 | version, type, flags, stream id and length stand in this order, most significant byte first, and the payload after them |
| YamuxCodec.EncodeInvertsParse | src/tunnel/yamux.cpp:184-196 | a frame parsed is byte for byte the front of the buffer |
| YamuxCodec.PrefixNeedsMore | src/tunnel/yamux.cpp:184-193 | no proper prefix of a frame parses or is taken for a bad one |
| YamuxParser.ScanInPieces | src/tunnel/yamux.cpp:182-238 | parsing in two pieces, with the rest carried over, dispatches what one pass does |
| YamuxParser.ReceiveAllExact | src/tunnel/yamux.cpp:164-244 | a chunked read dies iff one pass over the bytes dies or the buffer guard fires at a chunk boundary, and dispatches that pass's frames |
| YamuxParser.NoGuardWhenFitting | src/tunnel/yamux.cpp:238-243 | the guard never fires on frames within the limit, complete or not |
| YamuxParser.ChunkingIsImmaterial | src/tunnel/yamux.cpp:164-244 | for frames within the limit, the cuts of `recv` change neither the frames dispatched nor whether the session dies |
| YamuxGuard.OversizeDies | src/tunnel/yamux.cpp:238-243 | a frame over the limit by more than the largest piece kills the session, however the bytes are cut |
| YamuxGuard.EveryCutSurvivesExactly | src/tunnel/yamux.cpp:164-244 | every way of cutting whole frames into `recv`s dispatches them all and survives iff no frame exceeds the limit by more than one byte |
| YamuxGuard.SomeCutSurvivesExactly | src/tunnel/yamux.cpp:164-244 | some way survives iff no frame exceeds the limit by more than the size of one `recv` |
| YamuxSystem.LocalKeeps | src/tunnel/yamux.cpp:35-85 | every public call keeps the two-party invariant: bytes conserved, streams announced first and once, FINs counted |
| YamuxSystem.WriteKeeps | src/tunnel/yamux.cpp:35-47 | a split `write` keeps it and sends exactly the bytes given |
| YamuxSystem.WriteSendsSplit | src/tunnel/yamux.cpp:35-47 | the frames of the state machine's `write` are those of `MuxStream.Write` |
| YamuxSystem.DeliverKeeps | src/tunnel/yamux.cpp:198-232 | dispatching the next frame in flight, with its replies, keeps the invariant |
| YamuxSystem.KnownUnlessSyn | src/tunnel/yamux.cpp:199-222 | a SYN in flight is for a stream unknown to the receiver, every other frame for a known one |
| YamuxSystem.DeliveredIsPrefix | src/tunnel/yamux.cpp:30-73 | what has reached a stream, read or waiting, is a prefix of what was written to it, and all of it when drained |
| YamuxSystem.ClosedHasFinInFlight | src/tunnel/yamux.cpp:75-85 | a stream closed on one side only has its FIN in flight |
| YamuxSystem.CloseAgrees | src/tunnel/yamux.cpp:75-85 | at most one FIN per side and stream, and agreement once drained |
| YamuxNet.ScanWire | src/tunnel/yamux.cpp:182-238 | parsing any prefix of a sent stream yields its first frames and less than one frame of rest |
| YamuxNet.RecvDelivers | src/tunnel/yamux.cpp:172-238 | one `recv` of any size is some number of whole-frame deliveries |
| YamuxNet.StepKeeps | src/tunnel/yamux.cpp:164-244 | every call and every `recv` keeps the byte-level invariant |
| YamuxNet.RunKeeps | src/tunnel/yamux.cpp:164-244 | so does every run |
| YamuxNet.EndToEnd | src/tunnel/yamux.cpp:35-244 | for every interleaving and cutting: no read loop dies, and what has reached each stream, read or waiting, is a prefix of what was written, all of it when the bytes have arrived |
| YamuxSystem.FinMeansComplete | src/tunnel/yamux.cpp:75-85 | no data follows a FIN, so once it is processed everything written has been received |
| YamuxNet.FinishedIsComplete | src/tunnel/yamux.cpp:35-244 | so after every run, for every interleaving and cutting, on both sides |
| YamuxNet.TwoPartyClose | src/tunnel/yamux.cpp:75-85 | the FIN exchange over every run |
| YamuxReads.EverythingIsRead | src/tunnel/yamux.cpp:35-73 | after any run whose bytes have arrived, reads of any sizes yield what was written on the other side, in order, as much as was asked for, and all of it iff enough was asked for |
| YamuxReads.ReadYields | src/tunnel/yamux.cpp:49-56 | one read yields the first bytes waiting, as many as asked for, and leaves the rest |
| YamuxReads.StreamsAreNumbered | src/tunnel/yamux.cpp:136-147 | over every run the client's streams are 1, 3, 5, ... and the server's 2, 4, 6, ..., in the order of opening |
| YamuxReads.NextIdExactly | src/tunnel/yamux.cpp:140-141 | stream numbers keep their parity and start again past 2^32 |
| YamuxReads.SplitIsFull | src/tunnel/yamux.cpp:35-47 | all frames of a `write` but the last carry 16 KiB |
| YamuxReads.OfferedExactly | src/tunnel/yamux.cpp:210-216 | over any frames: the stream offered is the first announced since the slot was free, the others are not offered |
| YamuxReads.AcceptedMakesRoom | src/tunnel/yamux.cpp:149-162 | accepting frees the slot, and the next announced stream is offered |
| YamuxReads.AnsweredExactly | src/tunnel/yamux.cpp:210-228 | over any frames: each ping is answered once, each announcement acknowledged once, no answer answered |
| YamuxReads.AnnouncedIsFresh | src/tunnel/yamux.cpp:199-216 | an announced stream is fresh even under an id in use, data for an unknown stream is dropped, and no other stream changes |
| YamuxReads.SessionEnds | src/tunnel/yamux.cpp:182-234 | whole frames are dispatched up to a GoAway or a header of another version, either of which ends the session at once |
| YamuxReads.FlagBits | src/tunnel/yamux.cpp:210-217 | SYN is the lowest bit of the flags and FIN the third, whatever the others are |
| YamuxReads.WireBytes | src/tunnel/yamux.cpp:111-134 | the bytes of a SYN, an ACK, a FIN, a data frame and an answered ping |
| YamuxMux.MuxStream.constructor | src/tunnel/yamux.hpp:22-45 | a fresh open stream with an empty buffer |
| YamuxMux.MuxStream.PushData | src/tunnel/yamux.cpp:30-33 | appends to the buffer |
| YamuxMux.MuxStream.Write | src/tunnel/yamux.cpp:35-47 | sends the data in frames of at most 16 KiB; a closed stream sends nothing and fails unless there was nothing to send |
| YamuxMux.MuxStream.TryRead | src/tunnel/yamux.cpp:49-56 | takes as many bytes off the front as are asked for and there; -1 for none yet, and, asked for some, 0 iff there are none any more |
| YamuxMux.MuxStream.Close | src/tunnel/yamux.cpp:75-85 | closes, and sends the FIN the first time only |
| YamuxMux.Mux.constructor | src/tunnel/yamux.cpp:91-94 | client ids odd, server ids even |
| YamuxMux.Mux.SendFrame | src/tunnel/yamux.cpp:111-134 | the bytes sent are always the encoding of the frames sent, of any type and size |
| YamuxMux.Mux.OpenStream | src/tunnel/yamux.cpp:136-147 | a new stream under the next id, which wraps at 2^32, announced by a SYN |
| YamuxMux.Mux.AcceptStream | src/tunnel/yamux.cpp:149-162 | one poll: hands over the pending stream at most once, and nothing on a dead session |
| YamuxMux.Mux.OnSyn | src/tunnel/yamux.cpp:210-216 | adds the stream, offers it if nothing else is pending, acknowledges |
| YamuxMux.Mux.OnFin | src/tunnel/yamux.cpp:217-221 | closes the stream, answering with a FIN if it was open |
| YamuxMux.Mux.OnData | src/tunnel/yamux.cpp:199-208 | appends the payload to its stream and to no other |
| YamuxMux.Mux.OnWindowUpdate | src/tunnel/yamux.cpp:209-223 | SYN before FIN, anything else ignored |
| YamuxMux.Mux.DispatchFrame | src/tunnel/yamux.cpp:198-234 | one parsed frame of any type |
| YamuxMux.Mux.ReceiveChunk | src/tunnel/yamux.cpp:180-243 | the offset loop over the buffer dispatches what the specification's parser finds, and dies when it does |
| YamuxMux.Mux.ReadLoop | src/tunnel/yamux.cpp:164-244 | over any `recv` results the session ends where dispatching the parsed frames takes it |
| TopoSort.OrderMeansSortable | src/apps/app.cpp:154-181 | a permutation with dependencies first exists only if all are known and nothing is cyclic |
| TopoSort.ClosesCycle | src/apps/app.cpp:163-164 | coming back to a service on the recursion path exhibits a cycle through it |
| TopoSort.JustifiedMeansUnsortable | src/apps/app.cpp:164-172 | every error reported is a reason why no order exists |
| TopoSort.Sorter.constructor | src/apps/app.cpp:156-159 | the index by name |
| TopoSort.Sorter.Visit | src/apps/app.cpp:160-177 | the recursive visit terminates, keeps done services as the output and visiting ones as the recursion path, and fails with a justified error only |
| TopoSort.Sorter.VisitDependencies | src/apps/app.cpp:166-173 | its loop over the dependencies |
| TopoSort.Sort | src/apps/app.cpp:154-181 | true iff every dependency exists and the graph is acyclic; then a permutation with each dependency before its dependents |
| Ports.FirstFree | src/apps/app.cpp:399-406 | the least port from the wanted one on that is not taken |
| Ports.PickExact | src/apps/app.cpp:394-409 | ports picked are pairwise distinct, least possible, not in use, not claimed, and claimed afterwards |
| Ports.PickPorts | src/apps/app.cpp:396-409 | the loops compute just these |
| Reconcile.DecideExact | src/apps/app.cpp:355-384 | a container is recreated unless it is seen and recorded with the current configuration; one kept is started unless it is listed as running, and then runs iff it ran or the start succeeded |
| Reconcile.StepEffect | src/apps/app.cpp:350-440 | one successful turn: the record, the service's own container, and no other container |
| Reconcile.UpAllResult | src/apps/app.cpp:300-443 | a successful run records each service once with its current fingerprint and touches no foreign container |
| Reconcile.ConvergesExactly | src/apps/app.cpp:300-443 | it converges iff the containers it kept have the current configuration |
| Reconcile.AllRunExactly | src/apps/app.cpp:300-443 | after a successful run all services' containers run iff each one kept was running or could be started |
| Reconcile.SyncedConverges | src/apps/app.cpp:300-443 | from a state file in sync with the runtime it converges, and stays in sync |
| Reconcile.SyncIsExact | src/apps/app.cpp:300-443 | being in sync is just what every successful run needs to converge |
| Reconcile.SecondUpIsQuiet | src/apps/app.cpp:300-443 | the same run again stops, removes and creates nothing iff every container is seen, and then records the same state |
| Reconcile.CreatedPortsAreDistinct | src/apps/app.cpp:292-409 | no two containers created in one run get the same host port, also if the run fails |
| PortRecords.RecordedPortsDistinctExactly | src/apps/app.cpp:394-423 | the ports recorded by a successful run are distinct iff those recorded before for the services it will keep are and none of them is picked for a service it will create, both told from the state before the run |
| PortRecords.PortsToldBeforehand | src/apps/app.cpp:350-440 | what a successful run claims, creates and records is a fold of the picks over the wanted ports, the ports in use and the containers found |
| PortRecords.PicksAvoidExactly | src/apps/app.cpp:394-409 | picking avoids given ports, whatever is wanted, iff they are all in use or claimed |
| PortRecords.NewServiceIsSafeExactly | src/apps/app.cpp:394-423 | a new service is never given a held port, whatever it wants, iff all of those are in use or claimed when its turn comes |
| PortRecords.PickedNotInUse | src/apps/app.cpp:401-406 | a port in use is never picked, so kept services that listen are safe |
| PortRecords.RecordedPortsClash | src/apps/app.cpp:394-423 | a started service and a new one that end up recorded on the same port |
| Reconcile.KeptPortsStay | src/apps/app.cpp:411-417 | an unchanged service keeps the ports last recorded for it |
| Reconcile.FingerprintTells | src/apps/app.cpp:141-151 | the configuration is image, settings and ports, and nothing else |
| Reconcile.FailureIsFinal | src/apps/app.cpp:428-435 | after a failed service nothing else is touched |
| Commands.CommandsExactly | src/apps/app.cpp:355-435 | the commands of a successful run, container by container: kept ones are started unless listed as running, others are stopped, removed and run in this order, foreign ones are not touched |
| Commands.FailureLeaves | src/apps/app.cpp:386-435 | a service that cannot start leaves no other container changed and its own removed, or as it was but stopped if that worked |
| Reconcile.SyncAfterServices | src/apps/app.cpp:300-443 | a run in which no service fails leaves the old records in sync iff it recreated nothing they describe otherwise |
| Reconcile.UnrecordedRunExactly | src/apps/app.cpp:428-442 | the same for every run that is not recorded, by the services before the first that cannot start |
| Reconcile.RunReaches | src/apps/app.cpp:350-440 | a run succeeds iff every service can start, and otherwise records those before the first that cannot, told from the state before the run |
| Reconcile.SyncAfterUp | src/apps/app.cpp:428-442 | the state file left behind is in sync iff every service could start and it was rewritten, or nothing it describes was recreated |
| Reconcile.FailureLeavesStaleState | src/apps/app.cpp:428-435 | a run of two services that fails at the second and leaves a wrong file |
| AppUp.World.constructor | src/apps/app.cpp:252-256 | the machine before the command |
| AppUp.World.StartContainer | src/apps/app.cpp:374-381 | starts a stopped container, or fails to |
| AppUp.World.DiscardContainer | src/apps/app.cpp:386-392 | stop and remove, whatever becomes of either |
| AppUp.World.RunContainer | src/apps/app.cpp:425-435 | creates the container unless the name is taken |
| AppUp.World.DecideService | src/apps/app.cpp:355-384 | the loop over the recorded services, starting a stopped container that is kept |
| AppUp.LastRecordedPorts | src/apps/app.cpp:411-417 | the last record for the service counts |
| AppUp.World.UpService | src/apps/app.cpp:300-440 | one turn of the loop |
| AppUp.World.Up | src/apps/app.cpp:252-444 | sorts, reconciles in that order, and rewrites the state file on success only |
| ComposeText.SplitAfterKey | src/apps/compose.cpp:153-163 | a key without quotes and `: ` splits at the colon after it |
| ComposeText.UnquoteInvertsQuoteExactly | src/apps/compose.cpp:51-66 | text between quotes of either kind is read back iff no two quotes of the other kind meet in it |
| ComposeText.UnquoteChangesExactly | src/apps/compose.cpp:51-66 | only text between two quotes of one kind is changed |
| ComposeText.TrimExactly | src/apps/compose.cpp:44-49 | all white space at both ends goes, and nothing else |
| ComposeText.SplitAfterQuoted | src/apps/compose.cpp:151-163 | a quoted key ends at the colon after its closing quote, whatever stands between the quotes |
| ComposeText.FindSplit | src/apps/compose.cpp:151-163 | the splitting loop with its quote flags |
| ComposeParser.ParseBlock | src/apps/compose.cpp:101-200 | the mutual recursion ends on every line list, never moving back |
| ComposeReader.Parser.constructor | src/apps/compose.cpp:101-106 | starts at the first line |
| ComposeReader.Parser.ParseBlock | src/apps/compose.cpp:108-114 | sequence or mapping by the first line |
| ComposeReader.Parser.ParseSeq | src/apps/compose.cpp:116-147 | the sequence loop, advancing `pos` as the function does |
| ComposeReader.Parser.ParseInlineMap | src/apps/compose.cpp:130-139 | the inline item and its siblings, re-entering before `pos` moves |
| ComposeReader.Parser.ParseKvInto | src/apps/compose.cpp:149-188 | one key: split error, scalar, nested block or null |
| ComposeReader.Parser.ParseMap | src/apps/compose.cpp:190-199 | the mapping loop |
| ComposeRoundTrip.ParsePrintedItems | src/apps/compose.cpp:116-147 | a printed sequence is read back, wherever it stands: scalars plain or quoted, dashes alone, and nested mappings and sequences |
| ComposeRoundTrip.ParsePrintedEntries | src/apps/compose.cpp:190-199 | printed mappings of any depth, with plain or quoted keys and values, are read back, wherever they stand |
| ComposeRoundTrip.ParseInvertsPrint | src/apps/compose.cpp:394-395 | parsing a printed document gives the tree printed and consumes every line, however deep the first one stands |
| ComposeRoundTrip.PaddingIsImmaterial | src/apps/compose.cpp:164-166 | white space around a value and before the colon is no part of value or key |
| ComposeRoundTrip.ItemPaddingIsImmaterial | src/apps/compose.cpp:141-143 | white space around an item is no part of it |
| ComposeRoundTrip.NoColonFails | src/apps/compose.cpp:164-165 | a line without a colon where a key should be fails the document, naming the line |
| ComposeRoundTrip.NestedFailure | src/apps/compose.cpp:116-188 | a failure below a key or a dash is the failure of the whole |
| ComposeMisreads.NullExactly | src/apps/compose.cpp:168-183 | a key without a value is read as such iff the next line is missing, at the left margin, or neither key nor item |
| ComposeMisreads.NullEntryExactly | src/apps/compose.cpp:168-199 | a mapping that begins with such a key is read as written iff it is at the left margin; else that key becomes a mapping of all the others |
| ComposeMisreads.StrayLineEnds | src/apps/compose.cpp:190-199 | a mapping of scalars ends at the first line with another indentation, deeper or not, and nothing after it is looked at |
| ComposeMisreads.BlocksEnd | src/apps/compose.cpp:116-147 | so do sequences and the further keys of an inline item, which take a dash alone for a key |
| ComposeInlineItems.NestedSibling | src/apps/compose.cpp:135-139 | a sibling key with a nested value is bound to a mapping of itself and all later siblings |
| ComposeInlineItems.NestedSiblingSwallows | src/apps/compose.cpp:135-139 | with a nested value among the siblings the line after them is swallowed, whatever it is |
| ComposeInlineItems.ItemsNeedDashes | src/apps/compose.cpp:116-147 | a sequence never has more items than dash lines consumed |
| ComposeInlineItems.NestedHead | src/apps/compose.cpp:128-140 | the first key of an inline item may have a nested value, which is read as written |
| ComposeInlineItems.InlineSequenceExactly | src/apps/compose.cpp:116-147 | a printed sequence of inline items, wherever it stands, is read as its mappings and to its end iff every further key has its value on its own line |
| ComposeInlineItems.InlineDocumentExactly | src/apps/compose.cpp:116-147 | at the end of a document the value alone tells |
| ComposeInlineItems.TwoItemsMerge | src/apps/compose.cpp:128-140 | two items of which the first ends with a nested value become one, and what is lost |
| Interpolation.IndexOf | src/apps/compose.cpp:211-221 | the first occurrence, or none |
| Interpolation.IndexOfPair | src/apps/compose.cpp:218 | the first place where the two characters stand side by side, or none |
| Interpolation.SplitsDashed | src/apps/compose.cpp:221-226 | `V-d` splits into name and default unless a `:-` or `:?` intervenes |
| Interpolation.SplitsColon | src/apps/compose.cpp:218-220 | `V:-d` splits at the colon |
| Interpolation.InterpolatesSegments | src/apps/compose.cpp:206-241 | a printed template evaluates segment by segment from the variables of the file and of the process, the file's first, values not being expanded again |
| Interpolation.FileWins | src/apps/compose.cpp:227-236 | `${V}` is the file's value if it has one, even with the process's set; else the process's; else nothing |
| Interpolation.EmptyInFileIsDefault | src/apps/compose.cpp:228-234 | an empty value in the file makes both forms use the default, whatever the process has |
| Interpolation.NameIsTrimmed | src/apps/compose.cpp:227 | white space around the name is no part of it |
| Interpolation.RequiredExactly | src/apps/compose.cpp:216-236 | `${V:?message}` gives the value of `V` iff the variable called `V:?message` has the same |
| Interpolation.DashedExactly | src/apps/compose.cpp:221-234 | `${V-d}` means what the Compose Specification says unless the variable is set and empty and the default is not |
| Interpolation.UnclosedIsText | src/apps/compose.cpp:211-212 | text without a closing brace comes out unchanged |
| Interpolation.Render | src/apps/compose.cpp:206-241 | the index loop computes the same |
| LogRotation.RenamedExact | src/log/logger.cpp:100-113 | where the content of every name comes from when the renames are done |
| LogRotation.RotatedExact | src/log/logger.cpp:97-118 | a rotation moves each kept file one place, forgets the oldest, and leaves later numbers alone |
| LogRotation.RunsAreJournals | src/log/logger.cpp:86-120 | every further line keeps directory and journal in step |
| LogRotation.FilesFollowJournal | src/log/logger.cpp:86-187 | the directory holds the newest files of a loss-free, in-order split of everything written, with each rotation necessary and each file within its limit |
| LogRotation.KeptIsSuffix | src/log/logger.cpp:97-118 | the kept files, oldest to newest, are a suffix of everything written |
| LogRotation.RotatedFilesAreBounded | src/log/logger.cpp:86-120 | a file begun by a rotation holds consecutive lines and is shorter than the limit plus the first |
| LogRotation.BoundIsAttained | src/log/logger.cpp:86-120 | that bound is attained by one byte less |
| LogRotation.StaysBelowExactly | src/log/logger.cpp:86-120 | such a file stays below the limit, whatever is appended, iff its first line is empty |
| LogRotation.NoLimitNoRotation | src/log/logger.cpp:88-92 | with a limit of zero nothing is ever rotated |
| Loggers.Logger.constructor | src/log/logger.cpp:134-159 | the size of the file found counts toward the limit |
| Loggers.Logger.RotateIfNeeded | src/log/logger.cpp:86-120 | counts, or renames file by file |
| Loggers.Logger.Emit | src/log/logger.cpp:168-187 | below the level nothing, else one line; a line that needs a file that cannot be reopened is lost, and all after it |
| Loggers.RankIsPlace | src/log/logger.cpp:168 | levels are ranked by severity |
| Loggers.LineTellsAll | src/log/logger.cpp:170-178 | a line begins with the time, ends with the message and a line break, and tells time, level and message apart |

## Left out

- llama.cpp, the tokenizer and the sampler: functions and per-call outcomes given as parameters; a failed decode is taken to leave the cache unchanged, and the memory module to be present.
- Greedy sampling only: the tokens of `Model.next` depend on nothing but the context.
- `Session*`: a session is a value in the table's map and its pointer is its key, so aliasing of the pointer is not modelled.
- `std::chrono::steady_clock`: a logical clock that advances with every reading, so equal timestamps do not occur.
- Servers.Server.constructor: requires two sequences, because with fewer the allocator's own vector is too short.
- Statistics, logging and message texts; stop-sequence trimming of the returned text by the callers.
- Threads and locks: each public call and each `recv` is one step, and polling waits are single polls. So nothing comes between the closed test and the send of `write`, where another thread could close the stream and its FIN overtake the data.
- `MuxStream::read`: its successful outcome is that of `TryRead`; blocking until data arrives is not modelled.
- YamuxNet.EndToEnd: speaks of runs in which no side opens so many streams that its ids wrap around at 2^32.
- YamuxMux.Mux.SendFrame: requires payloads below 4 GiB; longer ones would be cut in the header.
- Failing or partial `send`s, `Mux::close` and the destructors.
- That every announced stream is accepted: the pending slot holds one stream, and `OfferedExactly` says which.
- `config_fingerprint`: the hash is taken to be injective on image, settings and ports.
- Host ports that are no positive number are passed through; numbers above 65535 are not special.
- Reconcile.SecondUpIsQuiet: takes the same service order both times, as the sort gives for the same services.
- Rewriting of environment values, translation of volumes, discovery of the compose file and the app name.
- TopoSort.Sort: requires distinct names, which `load_compose` gets from the keys of a map; a repeated name is not modelled.
- ComposeInlineItems.InlineDocumentExactly: requires the keys of one item to be distinct, because a repeated key may hide the misread value; `InlineSequenceExactly` does not.
- Comment stripping, tabs, anchors and reading of the file; translation of the parsed tree into services.
- ComposeRoundTrip.ParseInvertsPrint: the trees have non-empty mappings and sequences and no keys without a value, which `ComposeMisreads.NullEntryExactly` shows to be misread.
- Interpolation.InterpolatesSegments: leaves out names, messages and defaults that contain the separators before them.
- Log files are named by number; a failing rename, a second `init` and the standard error copy are not modelled.
- HTTP and SSE handling, chat templates, relay, proxy, certificates, DNS, port mapping, model registry and the command line.
