# A verified model of the inference gateway extension

The endpoint picker of the Gateway API inference extension chooses, for each request to a large
language model, the model server (pod) that should answer it. This project models five parts of it
in Dafny and proves what they guarantee over all inputs and all runs.

**Prefix cache affinity** (`Recency`, `Indexer`, `PromptHash`, `PromptChain`, `PrefixPlugin`).
A two-level table and a linked list remember which server recently saw which block hash. The index is
proved to hold exactly the most recently touched pairs of its capacity. The block hashes are computed
in a byte buffer in which each hash overwrites the first eight bytes of the following block; the model
keeps that overwrite, characterises the resulting hashes, and proves when they differ from the recurrence
documented at plugin.go:218-220. Together these give the score its meaning: a match of a given length
implies that a prompt with the same model and the same (hashed) prefix was sent to that server before.

**Continuous batching** (`Batching`, `BatchingProofs`, `BatchingLimits`, `Actor`). The simulator's actor moves requests
between prefill, decode, recompute and decoded stores under sequence, token and memory limits and
evicts when memory is short. Every batch is the longest within the limits and every eviction the smallest
that suffices, in plain numbers; every run keeps its limits and loses or duplicates no request, and without
new arrivals every run drains.

**The ext-proc stream** (`Chunker`, `ExtProc`, `ExtProcBytes`, `ExtProcBuffer`, `ExtProcLength`,
`ExtProcAnswers`, `RunningGauge`, `StreamingServer`). The request/response state machine of the external processor in
full-duplex streamed mode. For every input, also if sending fails at any point, what is sent is in protocol
order and the request body has the length generated for it; the first complete request on a stream gets exactly
one answer, told from its bytes and the director's verdict; bodies arrive byte for byte; the gauge of
running requests is exact over every interleaving of streams with one request each.

**Datastore and reconcilers** (`ModelProtocol`, `PodProtocol`, `Datastore`). Changes at the API server
raise events, events are reconciled in any order, and the local store must converge: the oldest
InferenceModel for each model name, and the ready pods that match the pool.

**Scheduling** (`Filters`, `DecisionTree`, `Scheduler`, `Saturation`, `Scoring`, `Profile`, `PrefixCycle`,
`WeightedDraw`). Filters, decision trees, the default flow chart, scorers, pickers, whole cycles with the
prefix plugin, and the weighted choice of a target model. The guarantees hold for every outcome of the
random choices.

Code that updates state in the source is a class or a method with loops here, and each method is proved
against a function on values; the theorems are about those functions. External code enters as a parameter:
the hash function, the JSON codec, the request director's answer, and random numbers.

## Where the code does less than it says

Each of these has a concrete input or run that shows it, and the exact condition under which the promise holds.

- The documented hash recurrence is not what is computed from the second block on: `OverwriteHidesBytes`,
  `DocumentedIff`. With blocks of at most 8 bytes the blocks after the first do not count at all as long as
  appends fit into the buffer: `ShortBlocksShare`, `NoRoomIsDocumented`.
- A second request body on the same stream that changes the model name takes the wrong model off the
  gauge: `RenamingBreaksGauge`, `DeliverExact`.
- A response that is not JSON comes after whatever the shared buffer still holds, an incomplete request body
  or an earlier response: `LeftoverRequest`, `LeftoverResponse`, `RawResponseOfRun`.
- A content length received with the request is sent on beside the one generated for the re-encoded request:
  `TwoLengths`, `LengthsAgreeIff`.
- An error of encoding a routed request is assigned to a shadowed variable (server.go:218-222): nothing is sent
  and the stream stays open. `LostEncodingError`, `UnansweredIff`.
- An InferenceModel that is deleted and created again before the deletion is reconciled can hide an older
  one or stay stored under its old model name: `RecreatedShadowsOlder`, `RecreatedLeavesEntry`,
  `SetIfOlderExact`. Clearing the store loses the settled models:
  `ClearLosesModel`, `ClearExact`.
- A list that fails during a resync is not repeated by the retry: `FailedListLosesModel` and
  `FailedListLosesPod`, with the two lemmas `FailedListExact`.
- Deleting a stored InferenceModel before a pool is set dereferences a missing pool: `MissingPoolCrash`, and
  `ReconcileModel` says exactly when.

## Model

| member | source | states |
|---|---|---|
| Recency.HoldsMostRecent | pkg/epp/scheduling/framework/plugins/multi/prefix/indexer.go:71-135 | after any sequence of touches a recency list of capacity `cap` holds exactly the `cap` distinct keys touched last, in order of last touch |
| Recency.ByLastTouchOrdered | pkg/epp/scheduling/framework/plugins/multi/prefix/indexer.go:88-95 | in the reference list an earlier key was last touched earlier |
| Recency.ByLastTouchDistinct | pkg/epp/scheduling/framework/plugins/multi/prefix/indexer.go:88-95 | the reference list has no key twice |
| Recency.LastTouchIsLast | pkg/epp/scheduling/framework/plugins/multi/prefix/indexer.go:88-95 | after its last touch a key does not occur in the history again |
| Recency.SmallerIsSuffix | pkg/epp/scheduling/framework/plugins/multi/prefix/indexer.go:97-112 | inclusion: a smaller cache holds a suffix of what a larger one holds after the same history |
| Recency.PresentIff | pkg/epp/scheduling/framework/plugins/multi/prefix/indexer.go:97-135 | a key is still cached if and only if at most `cap` distinct keys were touched since its last touch, itself included |
| Recency.LastTouchedPresent | pkg/epp/scheduling/framework/plugins/multi/prefix/indexer.go:71-77 | the key touched last is never the one evicted |
| PrefixIndex.Inserted | pkg/epp/scheduling/framework/plugins/multi/prefix/indexer.go:97-112 | storing a new element keeps table and list in bijection, without empty inner maps |
| PrefixIndex.Removed | pkg/epp/scheduling/framework/plugins/multi/prefix/indexer.go:115-135 | removing the front element, and its inner map if that becomes empty, keeps the bijection |
| PrefixIndex.Moved | pkg/epp/scheduling/framework/plugins/multi/prefix/indexer.go:88-95 | moving an element to the back keeps the bijection and makes its key the most recent one |
| PrefixIndex.StoredIffListed | pkg/epp/scheduling/framework/plugins/multi/prefix/indexer.go:79-86 | a pair is found in the table if and only if its key is on the list |
| PrefixIndex.Indexer.constructor | pkg/epp/scheduling/framework/plugins/multi/prefix/indexer.go:32-40 | a new index is valid and empty |
| PrefixIndex.Indexer.Get | pkg/epp/scheduling/framework/plugins/multi/prefix/indexer.go:58-66 | returns exactly the servers whose pair with the hash is among the index's entries |
| PrefixIndex.Indexer.AddAll | pkg/epp/scheduling/framework/plugins/multi/prefix/indexer.go:71-77 | table plus linked list refine the recency list: the entries become those of touching all the keys in turn |
| PrefixIndex.Indexer.Add | pkg/epp/scheduling/framework/plugins/multi/prefix/indexer.go:79-95 | one touch of the recency list, whether the pair is new or known |
| PrefixIndex.Indexer.MoveToBack | pkg/epp/scheduling/framework/plugins/multi/prefix/indexer.go:88-95 | a known key becomes the most recent, the others keep their order |
| PrefixIndex.Indexer.Create | pkg/epp/scheduling/framework/plugins/multi/prefix/indexer.go:97-112 | the eviction loop ends and leaves the most recent entries that make room for the new key |
| PrefixIndex.Indexer.Evict | pkg/epp/scheduling/framework/plugins/multi/prefix/indexer.go:115-135 | exactly the least recent entry goes, from list and table; nothing happens when there is none |
| PromptHash.ToBytesInjective | pkg/epp/scheduling/framework/plugins/multi/prefix/plugin.go:245-249 | the eight-byte encoding of hashes is injective |
| PromptHash.HashPrompt | pkg/epp/scheduling/framework/plugins/multi/prefix/plugin.go:221-243 | no hashes for a prompt shorter than a block, otherwise one plus min(len/size, maxBlocks); for every block size and spare capacity what they are: the chain of the blocks overwritten in place, all of them for blocks of at least 8 bytes, then the documented recurrence on the buffer as the last append that fitted left it |
| PromptHash.HashBlocks | pkg/epp/scheduling/framework/plugins/multi/prefix/plugin.go:232-242 | the loop over the buffer computes exactly those hashes from the buffer's original blocks despite overwriting it |
| PromptHash.HashBlock | pkg/epp/scheduling/framework/plugins/multi/prefix/plugin.go:237-240 | hashes a block with the previous hash appended, and the append overwrites the buffer after the block |
| PromptHash.Advance | pkg/epp/scheduling/framework/plugins/multi/prefix/plugin.go:237-240 | one pass of the loop moves on by one block, and tells whether an append fits after it |
| PromptHash.AdvanceBuffer | pkg/epp/scheduling/framework/plugins/multi/prefix/plugin.go:237-240 | one pass extends the hashes by one block and leaves the buffer as the specification expects it, in place or frozen |
| PromptHash.TruncatedBlocks | pkg/epp/scheduling/framework/plugins/multi/prefix/plugin.go:227-230 | truncating the prompt keeps exactly its first `max` blocks |
| PromptHash.BlockCount | pkg/epp/scheduling/framework/plugins/multi/prefix/plugin.go:236-241 | a prompt has len/size whole blocks |
| PromptHash.ChainOfIsChain | pkg/epp/scheduling/framework/plugins/multi/prefix/plugin.go:221-243 | every model and block list has a chain, so the statements about chains are never vacuous |
| PromptChain.ChainUnique | pkg/epp/scheduling/framework/plugins/multi/prefix/plugin.go:221-243 | the hashes are determined by model and blocks alone: not by spare buffer capacity |
| PromptChain.SharedPrefixSharedHashes | pkg/epp/scheduling/framework/plugins/multi/prefix/plugin.go:232-242 | prompts with the same model and the same visible first k blocks have the same first k+1 hashes |
| PromptChain.SharedHashSharedPrefix | pkg/epp/scheduling/framework/plugins/multi/prefix/plugin.go:232-242 | with a hash that is collision-free on the inputs hashed, an equal hash at positions j and k means j = k, the same model and the same visible first k blocks |
| PromptChain.HashesAgreeIff | pkg/epp/scheduling/framework/plugins/multi/prefix/plugin.go:232-242 | both directions at one position: k-th hashes are equal if and only if model and visible first k blocks are |
| PromptChain.DocumentedIff | pkg/epp/scheduling/framework/plugins/multi/prefix/plugin.go:218-220 | the computed hashes equal the documented recurrence if and only if under that recurrence each overwritten block begins with the very bytes written over it |
| PromptChain.HarmlessIsDocumented | pkg/epp/scheduling/framework/plugins/multi/prefix/plugin.go:218-220 | as far as the documented chain makes overwriting harmless the two agree, without assumption on the hash |
| PromptChain.OverwriteHidesBytes | pkg/epp/scheduling/framework/plugins/multi/prefix/plugin.go:239-239 | two different prompts that have the same hashes under every hash function, although their documented hashes differ under every one free of collisions on them |
| PromptChain.ShortBlocksShare | pkg/epp/scheduling/framework/plugins/multi/prefix/plugin.go:236-241 | with blocks of at most 8 bytes, prompts with the same model and first block have the same hashes for as many blocks as are in place, whatever the other blocks are |
| PromptChain.NoRoomIsDocumented | pkg/epp/scheduling/framework/plugins/multi/prefix/plugin.go:218-220 | where not even the first append fits into the buffer the hashes are the documented ones |
| PromptChain.NoRoomExample | pkg/epp/scheduling/framework/plugins/multi/prefix/plugin.go:236-241 | two blocks of four bytes without spare capacity: the second block does count |
| PrefixMatch.IndexAfterRecording | pkg/epp/scheduling/framework/plugins/multi/prefix/plugin.go:135-146 | the index after a history of recorded requests, one request later |
| PrefixMatch.KeyRecorded | pkg/epp/scheduling/framework/plugins/multi/prefix/plugin.go:135-146 | a key was touched if and only if some request recorded on that server has that hash |
| PrefixMatch.HitMeansShared | pkg/epp/scheduling/framework/plugins/multi/prefix/plugin.go:181-200 | a hash found for a server was recorded there by a request with the same model and the same visible prefix up to it |
| PrefixMatch.MatchIsShared | pkg/epp/scheduling/framework/plugins/multi/prefix/plugin.go:135-200 | over every run: a match longer than j on a server means a request with the same model and visible first j blocks was sent there before |
| PrefixMatch.MatchIsExact | pkg/epp/scheduling/framework/plugins/multi/prefix/plugin.go:135-200 | and conversely, as long as the history fits into the index |
| PrefixMatch.BestAbove | pkg/epp/scheduling/framework/plugins/multi/prefix/plugin.go:181-200 | a server's best match exceeds j if and only if it holds some hash from position j on |
| PrefixPlugin.Plugin.MatchLongestPrefix | pkg/epp/scheduling/framework/plugins/multi/prefix/plugin.go:181-200 | each server returned has its best match; each server left out has a strictly shorter one than all returned; none is left out if fewer than asked for are returned; and fewer than `numServers` of those returned have a longer match than any one of them |
| PrefixPlugin.SelectedIff | pkg/epp/scheduling/framework/plugins/multi/prefix/plugin.go:181-200 | who is returned: exactly the servers with a match that fewer than `numServers` returned ones exceed |
| PrefixPlugin.PodScoreCovers | pkg/epp/scheduling/framework/plugins/multi/prefix/plugin.go:165-172 | the score times the number of hashes is the length of the longest match, or 0 for a server that is not returned |
| PrefixPlugin.Plugin.AddNew | pkg/epp/scheduling/framework/plugins/multi/prefix/plugin.go:190-196 | servers already found keep their longer match |
| PrefixPlugin.WholePromptSelected | pkg/epp/scheduling/framework/plugins/multi/prefix/plugin.go:181-200 | a server that holds the whole prompt is never squeezed out |
| PrefixPlugin.PodScoreRange | pkg/epp/scheduling/framework/plugins/multi/prefix/plugin.go:165-172 | scores lie in [0,1] and a server holding the whole prompt scores exactly 1 |
| PrefixPlugin.Plugin.Score | pkg/epp/scheduling/framework/plugins/multi/prefix/plugin.go:149-178 | hashes, selection and scores of every given pod, each in [0,1] and the matched part of the hashes, 1 where the whole prompt is cached |
| PrefixPlugin.Plugin.ScorePods | pkg/epp/scheduling/framework/plugins/multi/prefix/plugin.go:174-177 | exactly the given pods are scored, pods without a match with 0 |
| PrefixPlugin.Plugin.PostCycle | pkg/epp/scheduling/framework/plugins/multi/prefix/plugin.go:135-146 | the request joins the history the index is proved to reflect, and the target then holds its whole prompt; nothing is recorded without a prefix state |
| PrefixPlugin.Plugin.RecordThenScore | pkg/epp/scheduling/framework/plugins/multi/prefix/plugin.go:135-178 | scoring the prompt just recorded gives the chosen pod exactly 1 |
| PrefixPlugin.ScoreMeansShared | pkg/epp/scheduling/framework/plugins/multi/prefix/plugin.go:135-200 | a score above j of n hashes means that a request with the same model and visible first j blocks was recorded on the pod; for a selected pod and an index that evicted nothing, exactly that |
| BatchingProofs.CanPrefillIff | tools/simulations/llm_ig_simulation/src/continous_batching.py:10-85 | the prefill test is true exactly when the fetch returns a non-empty batch |
| BatchingProofs.EmptyDecodeCanPrefill | tools/simulations/llm_ig_simulation/src/continous_batching.py:10-43 | with nothing in decode a queued request can always be prefilled |
| BatchingProofs.PrefillCount | tools/simulations/llm_ig_simulation/src/continous_batching.py:45-115 | fetching and prefilling a batch neither loses nor duplicates a request |
| BatchingProofs.PrefillWork | tools/simulations/llm_ig_simulation/src/continous_batching.py:45-115 | prefilling generates exactly one token for each request in the batch |
| BatchingProofs.PrefillInv | tools/simulations/llm_ig_simulation/src/continous_batching.py:45-115 | and keeps the limits: decode size, tokens remaining, token allowance |
| BatchingProofs.EvictedKeeps | tools/simulations/llm_ig_simulation/src/continous_batching.py:117-131 | evicting until memory suffices ends, moves requests without changing the work left, and does remove one if memory was short |
| BatchingProofs.DecodedKeeps | tools/simulations/llm_ig_simulation/src/continous_batching.py:133-163 | a decode step generates one token for each request in decode and keeps limits and population |
| BatchingProofs.LoadLorasKeeps | tools/simulations/llm_ig_simulation/src/continous_batching.py:87-115 | the token allowance stays the initial one minus the sizes of the adapters loaded |
| BatchingProofs.LoadedAre | tools/simulations/llm_ig_simulation/src/continous_batching.py:87-115 | the adapters loaded are the earlier ones and those of the requests prefilled |
| BatchingProofs.IterateKeeps | tools/simulations/llm_ig_simulation/src/continous_batching.py:173-191 | every iteration keeps invariant and population, and lowers (work, decode length) lexicographically unless idle |
| BatchingProofs.DrainsCompletely | tools/simulations/llm_ig_simulation/src/continous_batching.py:173-191 | without arrivals the loop ends with every request in the decoded store exactly as often as it was anywhere, with 0 tokens remaining |
| BatchingProofs.EveryRun | tools/simulations/llm_ig_simulation/src/continous_batching.py:173-191 | over every interleaving of arrivals and iterations: the invariant, and each request is present exactly as often as it arrived |
| BatchingProofs.AlwaysUnique | tools/simulations/llm_ig_simulation/src/continous_batching.py:10-191 | if ids differ on arrival, every request is always in exactly one store, once |
| BatchingProofs.DecodeIdsDiffer | tools/simulations/llm_ig_simulation/src/continous_batching.py:121-131 | then ids in decode differ, so that removal by id removes the request meant |
| BatchingLimits.TokensOneMore | tools/simulations/llm_ig_simulation/src/llmactor.py:21-29 | the tokens of a store: input and generated output of each request |
| BatchingLimits.AdmitsIff | tools/simulations/llm_ig_simulation/src/continous_batching.py:56-61 | a request is admitted exactly if there are at most 256 sequences, at most 512 tokens with its input, and less than nine tenths of the memory is used, counting the tokens already taken, one more for each request taken, and those in decode |
| BatchingLimits.TakenWithinLimits | tools/simulations/llm_ig_simulation/src/continous_batching.py:51-66 | each request taken from a queue is within the limits given those before it, and the first one left is not |
| BatchingLimits.BatchWithinLimits | tools/simulations/llm_ig_simulation/src/continous_batching.py:45-85 | each request of the batch is within the three limits given those before it |
| BatchingLimits.BatchIsMaximal | tools/simulations/llm_ig_simulation/src/continous_batching.py:45-85 | the batch is a prefix of the recompute queue and a prefix of the prefill queue, what is left are the rest of both, and the next request of each queue would exceed a limit |
| BatchingLimits.BatchOverrun | tools/simulations/llm_ig_simulation/src/continous_batching.py:51-66 | a batch exceeds 512 tokens at most by those that its last request had generated earlier |
| BatchingLimits.RecomputedBatchExceeds | tools/simulations/llm_ig_simulation/src/continous_batching.py:51-66 | and it can: a recomputed request with 601 tokens is a batch |
| BatchingLimits.OverflowIff | tools/simulations/llm_ig_simulation/src/continous_batching.py:117-119 | eviction is needed exactly if the tokens in decode and one more for each request exceed nine tenths of the allowance |
| BatchingLimits.EvictionLaw | tools/simulations/llm_ig_simulation/src/continous_batching.py:121-131 | eviction leaves a prefix of decode that does not exceed the memory and the longest such one, and changes nothing but the decode and recompute stores |
| BatchingLimits.EvictedWait | tools/simulations/llm_ig_simulation/src/continous_batching.py:128-131 | the evicted ones, and no others, join the recompute store, with one more recomputation counted |
| BatchingLimits.PrefillFirst | tools/simulations/llm_ig_simulation/src/continous_batching.py:173-191 | while a batch can be taken the requests in decode wait unchanged, and each request of the batch generates one token and goes to decode or, with its last token, to decoded |
| BatchingLimits.DecodeOtherwise | tools/simulations/llm_ig_simulation/src/continous_batching.py:173-191 | otherwise no queued request moves and each request that is not evicted generates one token |
| BatchingLimits.DecodeKeepsOrder | tools/simulations/llm_ig_simulation/src/continous_batching.py:133-163 | and the requests that go on keep their order: each has exactly those before it that go on in front |
| BatchingLimits.AllowanceInNumbers | tools/simulations/llm_ig_simulation/src/constants.py:11-21 | the allowance is 44448 tokens less 1600 for each of the two large adapters loaded |
| Actor.LLMActor.constructor | tools/simulations/llm_ig_simulation/src/llmactor.py:8-19 | a new actor is empty and within its limits |
| Actor.LLMActor.NumTokens | tools/simulations/llm_ig_simulation/src/llmactor.py:21-29 | the tokens of a store: input sizes plus tokens generated |
| Actor.LLMActor.CanPrefillItems | tools/simulations/llm_ig_simulation/src/continous_batching.py:10-43 | computes the prefill test, recompute queue before prefill queue |
| Actor.LLMActor.TakeWhileFits | tools/simulations/llm_ig_simulation/src/continous_batching.py:45-85 | takes the longest prefix of a queue each element of which fits with those taken before |
| Actor.LLMActor.FetchPrefillItems | tools/simulations/llm_ig_simulation/src/continous_batching.py:45-85 | the batch and the queues left behind are those of the specification, of which BatchingLimits states the limits and the maximality |
| Actor.LLMActor.ProcessPrefillItems | tools/simulations/llm_ig_simulation/src/continous_batching.py:87-115 | loads adapters and moves the batch to decode or decoded, in order |
| Actor.LLMActor.ShouldRecomputeItems | tools/simulations/llm_ig_simulation/src/continous_batching.py:117-119 | computes the memory test, which OverflowIff states in plain numbers |
| Actor.LLMActor.RemoveFromDecodeStore | tools/simulations/llm_ig_simulation/src/continous_batching.py:121-131 | evicts as specified, see EvictionLaw and EvictedWait, and ends |
| Actor.LLMActor.RecomputeNewest | tools/simulations/llm_ig_simulation/src/continous_batching.py:121-131 | the newest decode request goes to the recompute queue at its place |
| Actor.LLMActor.DecodeItems | tools/simulations/llm_ig_simulation/src/continous_batching.py:133-163 | one decode step over the whole store |
| Actor.LLMActor.PutBack | tools/simulations/llm_ig_simulation/src/continous_batching.py:155-161 | unfinished requests return to decode and finished ones go to decoded, each in order |
| Actor.LLMActor.PrefillOrDecode | tools/simulations/llm_ig_simulation/src/continous_batching.py:173-191 | one iteration of the actor loop refines the iteration the theorems are about |
| Actor.LLMActor.RunUntilIdle | tools/simulations/llm_ig_simulation/src/continous_batching.py:173-191 | the loop terminates with empty queues and all requests, and no others, decoded |
| Chunker.ChunksSplit | pkg/epp/handlers/server.go:444-487 | chunks concatenate to the body, all but the last are full, none exceeds the limit, and only the last may carry end-of-stream, as asked |
| Chunker.ChunksCounted | pkg/epp/handlers/server.go:444-487 | there are max(1, ceil(n/limit)) chunks |
| Chunker.BuildCommonResponses | pkg/epp/handlers/server.go:444-487 | the loop builds exactly those chunks, also for the empty body |
| ExtProcOrder.EveryTraceInOrder | pkg/epp/handlers/server.go:167-383 | for all messages and all send failures: one request header response before all request chunks, one unbroken request batch, nothing of the request after response headers were received, response chunks only between a response header response and an end of stream, nothing after an error response |
| ExtProcOrder.AcceptedIffOrdered | pkg/epp/handlers/server.go:323-383 | the finite observer used in the proof accepts exactly the traces that are in order |
| ExtProcOrder.ObserveExact | pkg/epp/handlers/server.go:323-383 | one event: accepted if and only if it may follow the trace |
| ExtProcOrder.EveryTraceOrdered | pkg/epp/handlers/server.go:167-383 | the same from every state that fits the observer |
| ExtProcOrder.StepFits | pkg/epp/handlers/server.go:185-318 | one message with its responses, sent in full or in part, keeps state and trace in step |
| ExtProcOrder.FlushFits | pkg/epp/handlers/server.go:323-383 | sending what is due is in order and leaves nothing of the response side due |
| ExtProcOrder.PendingKept | pkg/epp/handlers/server.go:185-299 | what handlers leave to be sent is marked with end of stream at most at its end |
| ExtProcOrder.DispatchPending | pkg/epp/handlers/request.go:63-96 | the request responses prepared are one batch that ends the stream with its last chunk and no other |
| ExtProcOrder.ResponsePending | pkg/epp/handlers/response.go:37-126 | so are the response chunks, with end of stream only if the response is complete |
| ExtProcBytes.SplitFacts | pkg/epp/handlers/server.go:217-225 | the chunks of a request or a response add up to its bytes, hence to the announced length |
| ExtProcBytes.RequestArrives | pkg/epp/handlers/server.go:193-229 | a request body in any number of parts: nothing is sent before its end, then the header response with the length of the re-encoded body and that body |
| ExtProcBytes.StreamedThrough | pkg/epp/handlers/server.go:253-267 | in event-stream mode a part is sent on whole at once |
| ExtProcBytes.StreamedSoFar | pkg/epp/handlers/server.go:253-267 | after every step the chunks sent are those of the parts received, hence the bytes sent the bytes received; end of stream is marked exactly once and last, and that when the last part has come |
| ExtProcBytes.StreamMarks | pkg/epp/handlers/response.go:112-126 | of all the chunks of an event stream the very last, and no other, ends the stream |
| ExtProcBytes.HeldBack | pkg/epp/handlers/server.go:268-296 | in buffered mode nothing is sent before the last part |
| ExtProcBytes.BufferedThenSent | pkg/epp/handlers/server.go:268-296 | with the last part everything is sent: the raw body if it is not JSON, its re-encoding if it is |
| ExtProcBytes.RawResponseIff | pkg/epp/handlers/server.go:268-296 | a response that is not JSON comes after what the shared buffer holds, and arrives unchanged if and only if that is nothing |
| ExtProcBuffer.BufferOfRun | pkg/epp/handlers/server.go:193-296 | the buffer of every open stream, told from the messages alone: the body bytes received since the last complete request body, those of buffered responses included |
| ExtProcBuffer.RawResponseOfRun | pkg/epp/handlers/server.go:268-296 | after any messages, the exact responses to a body that is not JSON; it arrives byte for byte if and only if those messages left nothing in the buffer |
| ExtProcBuffer.LeftoverRequest | pkg/epp/handlers/server.go:193-229 | a request cut short by the response comes out in front of that response |
| ExtProcBuffer.LeftoverResponse | pkg/epp/handlers/server.go:268-283 | a second response on a stream comes out with the first in front |
| ExtProcBuffer.ResponseRemembered | pkg/epp/handlers/server.go:268-296 | a decoded response is kept, so that the next one on the stream is decoded into it |
| ExtProcBytes.WholeExchange | pkg/epp/handlers/server.go:167-383 | the exact responses of a complete exchange in buffered mode, for bodies split in any way |
| ExtProcBytes.WholeStream | pkg/epp/handlers/server.go:167-383 | the exact responses of an exchange in event-stream mode after any number of parts, their bytes, and the one mark at the end |
| ExtProcLength.RequestSideOfEveryRun | pkg/epp/handlers/server.go:167-383 | for all messages and all send failures, everything ever sent on the request side is one header response and the chunks of one body, possibly cut short, and the Content-Length generated for the header is that of the body |
| ExtProcLength.GeneratedLength | pkg/epp/handlers/request.go:98-129 | in every run no more request bytes are sent than the Content-Length generated says (section 8.6 of RFC 9110), and exactly as many once the end of the stream is sent |
| ExtProcLength.CopiesReceived | pkg/epp/handlers/request.go:53-59 | in every run the header response also carries the last content length received before it |
| ExtProcLength.LengthsAgreeIff | pkg/epp/handlers/request.go:98-129 | once the request is sent, all lengths in its header response are the number of bytes sent if and only if no length was received before, or that very number |
| ExtProcLength.TwoLengths | pkg/epp/handlers/request.go:98-129 | for every codec that takes the bytes, a run that sends a request with two different lengths |
| ExtProcLength.PastForGood | pkg/epp/handlers/server.go:323-383 | after the request body or a received response header nothing is ever sent on the request side again |
| ExtProcAnswers.MalformedIsRefused | pkg/epp/handlers/server.go:201-206 | in any state a complete request body that does not decode is answered with status 400 alone, and the stream ends |
| ExtProcAnswers.RefusalIsAnswered | pkg/epp/handlers/server.go:385-442 | a refusal by the director is answered with 429, 500, 400 or 404 alone, or not at all if its code is unknown, and the stream ends |
| ExtProcAnswers.BodilessIsAnswered | pkg/epp/handlers/request.go:30-51 | a request without body: 500 without a pod, no answer without a pool, otherwise a header for the pod picked, with the length received and none generated |
| ExtProcAnswers.ChunksInNumbers | pkg/epp/handlers/server.go:444-487 | chunks of 62000 bytes, the last of at most as many, one for an empty body and otherwise as many as needed |
| ExtProcAnswers.PreliminariesWait | pkg/epp/handlers/server.go:193-199 | whatever arrives before the first complete request, nothing is sent and the stream stays open with the bytes received in its buffer |
| ExtProcAnswers.CompleteIsAnswered | pkg/epp/handlers/server.go:193-229 | the answer of a waiting stream to the end of a request body, and when the stream stays open |
| ExtProcAnswers.FirstRequestAnswered | pkg/epp/handlers/server.go:193-313 | after any messages without a response the first complete request is answered, and with nothing else, by what its bytes and the director say: 400, the status of the refusal, or header and body for the endpoint; the stream stays open exactly if the request is routed |
| ExtProcAnswers.UnansweredIff | pkg/epp/handlers/server.go:218-222 | no answer is sent exactly for a refusal of unknown code and for a routed request that cannot be encoded |
| ExtProcAnswers.LostEncodingError | pkg/epp/handlers/server.go:217-229 | the error of encoding a routed request is lost: nothing is sent and the stream stays open |
| RunningGauge.MovedCounted | pkg/epp/handlers/server.go:156-165 | after a stream moves on or ends, a model's count is wrong if and only if it is the old or new name of a renamed running stream |
| RunningGauge.DeliverExact | pkg/epp/handlers/server.go:334-347 | a message keeps the gauge exact if and only if it does not rename a running request |
| RunningGauge.StepExact | pkg/epp/handlers/server.go:156-165 | starting, ending and messages keep the gauge exact |
| RunningGauge.AlwaysExact | pkg/epp/handlers/server.go:156-165 | over every interleaving of streams, every exit and every send failure the gauge is the number of open streams of the model that have sent their request |
| RunningGauge.BackToZero | pkg/epp/metrics/metrics.go:367-379 | when all streams have closed every model reads zero |
| RunningGauge.OneRequestKeepsNames | pkg/epp/handlers/server.go:193-229 | a condition on the messages alone: if no stream receives a second complete request body, no running request is renamed |
| RunningGauge.ExactForOneRequestEach | pkg/epp/handlers/server.go:156-165 | hence over every interleaving of such streams, every exit and every send failure the gauge is exact, and zero when all have closed |
| RunningGauge.RunningIffBodySent | pkg/epp/handlers/server.go:334-347 | in every open exchange the stream counts as running exactly if a request body was sent |
| RunningGauge.EmptyNameUncounted | pkg/epp/metrics/metrics.go:367-379 | over every run the empty model name is never on the gauge |
| RunningGauge.RenamingBreaksGauge | pkg/epp/handlers/server.go:193-215 | for every codec that takes the bytes, a run from the empty state that ends without streams and with one model at 1 and another at -1 |
| StreamingServer.Process | pkg/epp/handlers/server.go:130-319 | the receive loop produces exactly the specified trace, and that trace is in protocol order |
| StreamingServer.ProcessOne | pkg/epp/handlers/server.go:167-319 | one message: responses, new context, and whether the stream goes on, also on errors and failed sends |
| StreamingServer.RequestContext.HandleMessage | pkg/epp/handlers/server.go:185-299 | the context fields after each kind of message |
| StreamingServer.RequestContext.ReceiveRequestBody | pkg/epp/handlers/server.go:193-229 | buffering, decoding and dispatching a request body, with its errors; ExtProcAnswers states what is answered |
| StreamingServer.RequestContext.DispatchRequest | pkg/epp/handlers/server.go:211-228 | the routed request re-encoded, its size recorded, header and body responses prepared |
| StreamingServer.RequestContext.ReceiveResponseBody | pkg/epp/handlers/server.go:253-296 | event-stream and buffered response bodies |
| StreamingServer.RequestContext.UpdateStateAndSendIfNeeded | pkg/epp/handlers/server.go:323-383 | sends what is due, in order, as far as sending succeeds, and advances the phases |
| StreamingServer.RequestContext.SendRequestSide | pkg/epp/handlers/server.go:326-347 | the request half of it |
| StreamingServer.RequestContext.SendResponseSide | pkg/epp/handlers/server.go:354-375 | the response half of it |
| StreamingServer.SendsThen | pkg/epp/handlers/server.go:323-383 | sending one list and then another is sending the concatenation, wherever it fails |
| StreamingServer.BudgetTraceIsTrace | pkg/epp/handlers/server.go:130-319 | a transport that fails after a number of sends is one of the failure patterns of the trace theorem |
| ModelProtocol.EveryReachable | pkg/epp/datastore/datastore.go:166-233 | over every run from the empty state: an entry without pending event is its live object as it is now, and no settled live object is older than the one served for its name |
| ModelProtocol.StepKeeps | pkg/epp/controller/inferencemodel_reconciler.go:43-99 | every API change and every reconcile, in any order, keeps that invariant |
| ModelProtocol.DrainedServesOldest | pkg/epp/datastore/datastore.go:166-233 | once events are drained a name is served if and only if the API holds an object of the pool with it that is not being deleted, and then by one with the earliest creation time |
| ModelProtocol.LastOfEqualAge | pkg/epp/datastore/datastore.go:166-183 | of two objects of the same age the one reconciled last is stored, and an object always replaces itself |
| ModelProtocol.ReconcileDeadServed | pkg/epp/controller/inferencemodel_reconciler.go:76-99 | deleting and resyncing hands the name to the oldest that is left |
| ModelProtocol.ReconcileLiveKeeps | pkg/epp/controller/inferencemodel_reconciler.go:43-74 | reconciling a live object keeps the invariant |
| ModelProtocol.SetIfOlderExact | pkg/epp/datastore/datastore.go:166-183 | without assuming that names are not reused: reconciling a live object restores the whole invariant if and only if an entry of its own name is under its present model name and no settled object of that model name is older |
| ModelProtocol.RecreatedShadowsOlder | pkg/epp/datastore/datastore.go:166-183 | a run from the empty state, with a name reused early, that ends with the newer of two settled objects served |
| ModelProtocol.RecreatedLeavesEntry | pkg/epp/datastore/datastore.go:166-183 | a run from the empty state, with a name reused early under another model name, that ends with the deleted object served for good |
| ModelProtocol.ClearExact | pkg/epp/datastore/datastore.go:99-110 | clearing keeps the promise if and only if no live object is settled |
| ModelProtocol.ClearLosesModel | pkg/epp/datastore/datastore.go:99-110 | a run after which clearing leaves a settled object unserved |
| ModelProtocol.FailedListNotRetried | pkg/epp/controller/inferencemodel_reconciler.go:83-94 | after a failed list the retry finds nothing to delete and leaves the name unserved |
| ModelProtocol.FailedListExact | pkg/epp/controller/inferencemodel_reconciler.go:83-94 | after a failed list and a retry the whole invariant holds if and only if no settled object has the model name of the deleted entry |
| ModelProtocol.FailedListLosesModel | pkg/epp/controller/inferencemodel_reconciler.go:83-94 | a run after which a failed list leaves a settled object unserved for good |
| PodProtocol.EveryReachable | pkg/epp/controller/pod_reconciler.go:43-105 | over every run from the empty state, of pod changes, reconciles, pool changes and clears: the pods stored are the ready matching ones except where an event is pending; without pending events exactly the ready pods whose labels carry every pair of the selector, with their addresses |
| PodProtocol.StepKeeps | pkg/epp/controller/pod_reconciler.go:67-105 | the event filter misses no change that matters |
| PodProtocol.SelectorChangeResyncs | pkg/epp/datastore/datastore.go:113-138 | a new selector makes the store exact in one step, whatever it was |
| PodProtocol.PoolSetExact | pkg/epp/datastore/datastore.go:113-138 | setting the pool makes the store exact if and only if the selector changes or no pending pod is out of date |
| PodProtocol.FailedListNotRetried | pkg/epp/datastore/datastore.go:123-134 | after a failed list and a retry a pod without pending event is stored rightly if and only if it is not ready or the old and the new selector agree on it |
| PodProtocol.FailedListExact | pkg/epp/datastore/datastore.go:123-134 | with no event pending, the whole store is right if and only if the selectors agree on every ready pod |
| PodProtocol.FailedListLosesPod | pkg/epp/datastore/datastore.go:123-134 | a run after which a failed list leaves a ready matching pod unknown |
| Datastore.Datastore.constructor | pkg/epp/datastore/datastore.go:75-84 | a new datastore is empty and has no pool |
| Datastore.Datastore.Clear | pkg/epp/datastore/datastore.go:99-110 | pool, models and pods are gone |
| Datastore.Datastore.PoolSet | pkg/epp/datastore/datastore.go:113-138 | refines the pool step of the pod protocol; no pool clears everything |
| Datastore.Datastore.LabelsMatch | pkg/epp/datastore/datastore.go:155-164 | without a pool nothing matches |
| Datastore.Datastore.ModelSetIfOlder | pkg/epp/datastore/datastore.go:166-183 | refused exactly if a different object that is strictly older holds the name |
| Datastore.Datastore.ModelResync | pkg/epp/datastore/datastore.go:185-215 | the scan finds an oldest live object of the pool, and reports whether there is one |
| Datastore.Datastore.ModelDelete | pkg/epp/datastore/datastore.go:223-233 | an entry that holds the object is removed and returned, if there is one |
| Datastore.Datastore.PodUpdateOrAddIfNotExist | pkg/epp/datastore/datastore.go:265-281 | the pod is stored with its current address; reports whether it was known |
| Datastore.Datastore.PodDelete | pkg/epp/datastore/datastore.go:283-289 | only that pod goes |
| Datastore.Datastore.PodResyncAll | pkg/epp/datastore/datastore.go:291-326 | afterwards exactly the listed ready pods are stored, with their current addresses |
| Datastore.Datastore.RemoveInactive | pkg/epp/datastore/datastore.go:316-323 | exactly the pods that are not active go |
| Datastore.ReconcileModel | pkg/epp/controller/inferencemodel_reconciler.go:43-99 | refines the reconcile step of the model protocol and keeps entries filed under their model names; it fails on a missing pool exactly when a stored object is gone and no pool is set, and then the entry is gone too |
| Datastore.MissingPoolCrash | pkg/epp/controller/inferencemodel_reconciler.go:76-99 | a run, a model stored and deleted before there is a pool, that dereferences the missing pool |
| Datastore.ReconcilePod | pkg/epp/controller/pod_reconciler.go:43-65 | refines the reconcile step of the pod protocol |
| Datastore.ReconcilePool | pkg/epp/controller/inferencepool_reconciler.go:41-69 | a missing or deleted pool clears, any other is set |
| Filters.SheddableCapacityFilter | pkg/epp/scheduling/framework/plugins/filter/sheddable_capacity_filter.go:48-62 | critical requests keep all pods, others those within both thresholds, in order |
| Filters.LowQueueFilter | pkg/epp/scheduling/framework/plugins/filter/low_queue_filter.go:46-56 | the pods with short queues, in order |
| Filters.LoraAffinityFilter | pkg/epp/scheduling/framework/plugins/filter/lora_affinity_filter.go:55-90 | the pods with the adapter or those with room for it, as the random draw decides when there are both |
| Filters.LoraGroups | pkg/epp/scheduling/framework/plugins/filter/lora_affinity_filter.go:55-90 | one group is returned whole and never mixed with the other, and the draw decides only between two non-empty groups |
| Filters.LoraEmptyIff | pkg/epp/scheduling/framework/plugins/filter/lora_affinity_filter.go:55-90 | nothing is returned if and only if no pod has the adapter or room for it |
| Filters.LeastQueueFilter | pkg/epp/scheduling/framework/plugins/filter/least_queue_filter.go:47-69 | the pods in the first part of the queue range, in order |
| Filters.QueueBounds | pkg/epp/scheduling/framework/plugins/filter/least_queue_filter.go:47-58 | the range bounds every queue, and its ends are attained (the upper one, or is zero) |
| Filters.LeastKVCacheFilter | pkg/epp/scheduling/framework/plugins/filter/least_kvcache_filter.go:47-68 | the pods in the first part of the cache usage range, in order |
| Filters.KvBounds | pkg/epp/scheduling/framework/plugins/filter/least_kvcache_filter.go:47-58 | the same for cache usage |
| DecisionTree.KeepSublist | pkg/epp/scheduling/framework/plugins/filter/low_queue_filter.go:46-56 | filtering by a test gives an order-preserving sublist |
| DecisionTree.TreeNarrows | pkg/epp/scheduling/framework/plugins/filter/decision_tree_filter.go:56-84 | every tree of sublist filters returns a sublist, for every random outcome |
| DecisionTree.TreeNeverEmpties | pkg/epp/scheduling/framework/plugins/filter/decision_tree_filter.go:56-84 | every tree whose terminal filters never empty a non-empty list never does either |
| DecisionTree.TreeTotal | pkg/epp/scheduling/framework/plugins/filter/decision_tree_filter.go:56-84 | and some result always exists |
| DecisionTree.NextFilter | pkg/epp/scheduling/framework/plugins/filter/decision_tree_filter.go:56-84 | which filter a node continues with, and on which pods: success or failure filter before the common one, the kept pods or all of them, and the kept pods as the result if there is no next filter |
| Scheduler.LeastQueueKeepsMin | pkg/epp/scheduling/framework/plugins/filter/least_queue_filter.go:47-69 | a pod with a shortest queue is kept |
| Scheduler.LeastQueueDropsMax | pkg/epp/scheduling/framework/plugins/filter/least_queue_filter.go:47-69 | if non-negative queue lengths differ, pods with a longest queue are dropped |
| Scheduler.LeastQueueIff | pkg/epp/scheduling/framework/plugins/filter/least_queue_filter.go:47-69 | a pod is kept exactly if its queue is in the first of as many equal parts of the range as there are pods |
| Scheduler.LeastKvKeepsMin | pkg/epp/scheduling/framework/plugins/filter/least_kvcache_filter.go:47-68 | a pod with least cache usage is kept |
| Scheduler.LeastKvDropsMax | pkg/epp/scheduling/framework/plugins/filter/least_kvcache_filter.go:47-68 | if usages differ, pods with the highest one are dropped |
| Scheduler.LeastKvIff | pkg/epp/scheduling/framework/plugins/filter/least_kvcache_filter.go:47-68 | a pod is kept exactly if its usage is in the first of as many equal parts of the range as there are pods |
| Scheduler.ChartsNarrow | pkg/epp/scheduling/scheduler.go:37-74 | the default flow chart is built from sublist filters |
| Scheduler.ChartNeverEmpties | pkg/epp/scheduling/scheduler.go:37-74 | and ends in filters that never empty a list |
| Scheduler.ChartPrefersShortQueues | pkg/epp/scheduling/scheduler.go:37-74 | if some pod has a short queue the chart ends with such pods |
| Scheduler.DefaultGuarantees | pkg/epp/scheduling/scheduler.go:37-74 | for every random outcome: no candidate if and only if there is no admitted pod; candidates are admitted, in order, and have short queues if any admitted pod has |
| Scheduler.EmptyEnds | pkg/epp/scheduling/framework/scheduler_profile.go:126-144 | a filter that leaves nothing ends the chain |
| Scheduler.ShortOutcomes | pkg/epp/scheduling/scheduler.go:45-65 | with short queues the results are exactly: adapter preference, then least queue, then least cache usage, for either preference |
| Scheduler.LongOutcomes | pkg/epp/scheduling/scheduler.go:45-65 | otherwise least queue, then adapter preference, then least cache usage |
| Scheduler.ChartOutcomes | pkg/epp/scheduling/scheduler.go:45-65 | the possible results of the flow chart are exactly two straight lines of filters |
| Scheduler.PreferredServe | pkg/epp/scheduling/framework/plugins/filter/lora_affinity_filter.go:55-90 | if some pod can serve the adapter all pods left can, and either all have it or none |
| Scheduler.ShortServe | pkg/epp/scheduling/scheduler.go:45-65 | if a pod with a short queue can serve the adapter, every candidate can, and all are of one group |
| Scheduler.LongServe | pkg/epp/scheduling/scheduler.go:45-65 | without short queues the same holds if a pod left by the least queue filter can serve the adapter |
| Scheduler.DefaultServes | pkg/epp/scheduling/scheduler.go:37-74 | every result of the default profile is that of the flow chart on the admitted pods, and its pods can serve the adapter if an admitted pod with a short queue can |
| Scheduler.RunFilterPlugins | pkg/epp/scheduling/framework/scheduler_profile.go:126-144 | the loop yields one of the specified outcomes, stopping at an empty list |
| Scheduler.RunCycle | pkg/epp/scheduling/framework/scheduler_profile.go:111-124 | without scorers: a pod the filters may leave, or a failure if they may leave none |
| Profile.RunScoredCycle | pkg/epp/scheduling/framework/scheduler_profile.go:111-124 | with any sound scorers: a pod that maximises the weighted sum among those some outcome of the filters leaves, or a failure if they may leave none |
| Profile.RunDefaultScored | pkg/epp/scheduling/framework/scheduler_profile.go:111-124 | the default filters with scorers: fails exactly when no pod is admitted; the pod is admitted, has a short queue if any admitted one has, and is best of those that the filters left |
| PrefixCycle.RunPrefixCycle | pkg/epp/scheduling/framework/scheduler_profile.go:111-124 | the whole cycle with the prefix plugin as scorer and post-cycle step: a pod with the highest total among those left, the request recorded on it and nowhere else, nothing recorded on failure |
| PrefixCycle.PickWithPrefix | pkg/epp/scheduling/framework/scheduler_profile.go:146-186 | the plugin's scores count with their weight beside those of any other scorers |
| PrefixCycle.Sticky | pkg/epp/scheduling/framework/scheduler_profile.go:146-186 | without other scorers, if some pod at hand holds the whole prompt, so does the one picked |
| PrefixCycle.RouteAgain | pkg/epp/scheduling/framework/scheduler_profile.go:188-195 | the same prompt sent again goes to a pod that holds it whole, whatever was recorded before |
| Scheduler.RunProfiles | pkg/epp/scheduling/scheduler.go:121-129 | one pod for each profile, or a failure of one of them |
| Scheduler.Schedule | pkg/epp/scheduling/scheduler.go:96-137 | the loop over the profile picker ends, with a result for every profile, or fails because there is no profile or one failed |
| Scheduler.ScheduleDefault | pkg/epp/scheduling/scheduler.go:37-137 | the default scheduler fails exactly when it must, and otherwise picks an admitted pod, with a short queue if any admitted pod has one, that can serve the adapter if an admitted pod with a short queue can, out of the result of the flow chart on the admitted pods |
| Saturation.IsSaturated | pkg/epp/saturationdetector/saturationdetector.go:116-168 | not saturated if and only if some pod has metrics no older than the bound and within both thresholds |
| Saturation.NotSaturatedNotShed | pkg/epp/saturationdetector/saturationdetector.go:116-168 | with equal thresholds and the same snapshot, not saturated means the default scheduler finds a pod for every request |
| Scoring.QueueScore | pkg/epp/scheduling/framework/plugins/scorer/queue.go:43-73 | exactly the given pods, in [0,1], ordered inversely to queue length, proportional to the distance from the longest queue, 1 for a shortest and 0 for a longest queue unless all are equal |
| Scoring.QueueScoreOrder | pkg/epp/scheduling/framework/plugins/scorer/queue.go:58-71 | shorter or equal queue if and only if higher or equal score |
| Scoring.KvCacheScore | pkg/epp/scheduling/framework/plugins/scorer/kvcache.go:40-46 | score and usage add up to 1 |
| Scoring.RunScorerPlugins | pkg/epp/scheduling/framework/scheduler_profile.go:146-168 | every pod gets the sum of weight times score over all scorers |
| Scoring.AddScores | pkg/epp/scheduling/framework/scheduler_profile.go:160-162 | one scorer adds its share to every pod it scores and changes no other |
| Scoring.ScoredPods | pkg/epp/scheduling/framework/scheduler_profile.go:170-186 | the picker is given exactly the scored pods with their scores |
| Scoring.MaxScorePick | pkg/epp/scheduling/framework/plugins/picker/max_score_picker.go:48-67 | a pod with the highest score; one exists if and only if some score is at least -1 |
| Scoring.PickBest | pkg/epp/scheduling/framework/scheduler_profile.go:111-124 | with non-negative weights and scores in [0,1] the pod picked maximises the weighted sum, and there always is one |
| WeightedDraw.RandomWeightedDraw | pkg/epp/requestcontrol/director.go:171-200 | draws below the 32-bit sum of the weights and returns the entry that owns the value, never the empty fallback; panics if that sum is not positive or a later weight is missing; uniform if the first entry has no weight |
| WeightedDraw.OneOwner | pkg/epp/requestcontrol/director.go:186-199 | every value below the total is owned by some entry |
| WeightedDraw.OwnerUnique | pkg/epp/requestcontrol/director.go:186-199 | and by one only |
| WeightedDraw.WeightIsShare | pkg/epp/requestcontrol/director.go:186-199 | an entry owns exactly as many values below the true sum as its weight |
| WeightedDraw.FairIff | pkg/epp/requestcontrol/director.go:186-199 | every entry is drawn for exactly as many values as its weight if and only if the sum of the weights fits into 32 bits |
| WeightedDraw.ValidatedIsFair | api/v1alpha2/inferencemodel_types.go:97-178 | for every list of targets the API admits, up to ten with weights from 1 to 1000000, the draw succeeds and every entry is drawn for exactly as many values as its weight |
| WeightedDraw.WrappedSumStarves | pkg/epp/requestcontrol/director.go:186-190 | without the API's validation: three weights whose sum wraps around so that only the first entry is ever drawn |

## Left out

- PrefixPlugin.Plugin.constructor: block size at least 8 and capacity at least 1 are required; with capacity 0 the eviction loop of the index never ends.
- PrefixMatch.MatchIsShared: assumes the hash is collision-free on the inputs hashed in the run and that no model name is as long as a block plus a hash, since xxhash is not modelled.
- PrefixIndex.Indexer.Evict: the linked list is a sequence of element references; the links between elements are not modelled.
- Locks, goroutines and the periodic size report of the index; the datastore's unlocked pod map and its races: every operation is one atomic step.
- Actor.LLMActor.PrefillOrDecode: one iteration is atomic; time, latencies and the metrics process are left out, requests are values (the shared request dictionary is not modelled), ids are natural numbers and the recompute store is a sequence sorted by id.
- StreamingServer.Process: of the headers only the endpoint and the content lengths are modelled (the one received as a number, under one spelling of its name); other headers, metadata, trailers, usage parsing and all metrics other than the running gauge are left out; the director's answer and the JSON codec are parameters, and an encoding error of a response sends nothing.
- RunningGauge.AlwaysExact: the gauge is modelled over the contexts of the streams rather than as a field of the server object.
- ModelProtocol.EveryReachable: one namespace, one pool, lists and reads succeed, no clear in between, and an object is created again under a name only after its deletion was reconciled; what happens otherwise is stated by SetIfOlderExact, ClearExact and FailedListExact.
- PodProtocol.EveryReachable: the event filter is evaluated when the API object changes, and lists and reads succeed.
- Datastore.ReconcileModel: namespaces, finalizers and errors of the API client are left out.
- Scheduler.RunCycle: without scorers and post-cycle plugins, as in the default profile; Profile.RunScoredCycle and PrefixCycle.RunPrefixCycle add them. Metrics and the cycle state are left out, and the LoRA draw is any outcome of the two.
- Scheduler.DefaultGuarantees: queue lengths and usages are at most the largest machine values; floating-point rounding, infinities and NaN are left out (usages and scores are reals), and pods with equal metrics and identity are one value.
- WeightedDraw.RandomWeightedDraw: nothing is stated for negative weights, which the API's validation excludes.
- The director's HandleRequest, PostDispatch and random pod: straight-line glue around the parts above.
- Body-based routing, the LoRA sidecar, metrics scraping and parsing, the simulator's load balancer, flags, serving and generated code: configuration, input and output, or easy members only.
