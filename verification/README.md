# Verified models of HaloWebUI mechanisms

HaloWebUI is a web interface and gateway for language models.  Most of it moves data between
databases and providers; the mechanisms modelled here are the ones that carry laws of their own.
Each module follows one source file or one mechanism of it, under `backend/open_webui/`.

- **Retrieval** (`retrieval/utils.py`).  `BatchEmbedding`: texts are embedded in batches that are
  halved when rejected and run in a pool; the result is the pointwise embedding.  `MergeResults`,
  `CollectionQuery`, `Sorting`: search results are merged, one best entry per document, and cut to k.
  `Cosine`, `Rerank`: scores over exact reals, and the two cuts of the rerank pipeline.
- **Message codec** (`haloclaw/crypto.py`).  `Utf8`, `Base64`, `Cbc`, `MessageCrypto`: framing, padding,
  chaining and base64 down to single bytes.  The block cipher and SHA-256 are parameters; the cipher
  is assumed to have an inverse and nothing else.
- **Tool loop** (`haloclaw/tool_executor.py`).  `ToolLoop`: the bounded loop of completions and tool
  calls over a history that only grows.  `StreamAssembly`, `EventStream`, `SortedKeys`: a message
  rebuilt from a fragmented stream of events.
- **User settings** (`models/users.py`).  `DeepMerge`, `UserSettings`: the recursive merge and the
  optimistic revision check.  `Json` holds the values.
- **Folders and chats** (`models/folders.py`, `models/chats.py`).  `FolderForest`, `FolderStore`,
  `FolderListing`: a table of parent links as a forest, its recursive deletion and listing.
  `ChatClock`, `ChatTable`: the logical clock behind the order of a user's chats, proved to
  implement a list in which every write moves its chat to the front, whatever the wall clock does.
- **Tasks** (`tasks.py`).  `TaskRegistry`: three maps that are, after any run, exactly what the
  history says.
- **Gateway** (`external_api/router.py`).  `RateLimiter`, `GatewayTranslation`; `JsonTexts` says what is asked of
  printing and parsing, and that it can be asked.
- **Database migration** (`runtime_migrations.py`).  `MigrationDetect`: what is read off a database.
  `MigrationProtocol`: any number of processes, each of which may die at any step, with uncommitted
  work lost.  `MigrationRun`: the code of one process, proved to be a run of the protocol.
  `ChatBackfill`: message rows rebuilt from chats, under unique ids.

Code that works step by step is modelled by classes and methods with loops, and each method is
tied to a function of its inputs or of the old state; the laws are proved about those functions, and
say by position, path, row or step what is computed.
A step that commits is atomic.  `Collections`, `Numbers` and `Wrappers` hold what the modules share.
Wall clocks, drawn ids, completion orders, provider answers, failures and the answers of queries
without an order are parameters, and everything is proved for all of them; a tool, a search or a provider may answer equal calls differently.

## Where the code and its promises part

The model keeps the code.  Each point below is proved, with the exact condition under which the
promise does hold.

- The assembled message does depend on transport chunks: byte chunks are decoded one by one, so a
  chunk that starts inside a character raises (`StreamAssembly.ChunkingIsIrrelevantIff`).
- Two patches without a common leaf path need not commute: a leaf may face a branch
  (`DeepMerge.PatchesCommuteIff`).
- When k is smaller than k_reranker and k is zero or nothing passes the threshold, the rerank pipeline raises
  inside and falls back to the plain vector search, whose answer knows no threshold (`Rerank.FallsBackIff`).
- A merge with k = 0 raises instead of returning nothing (`MergeResults.MergeFailsIff`).
- A negative embedding batch size returns an empty list for any texts, and zero raises
  (`BatchEmbedding.GenerateIsPointwiseIff`).
- The gateway rewrites tool uses whose id is empty or whose input is false but not `{}`
  (`GatewayTranslation.ToolUsesSurviveIff`).
- Row ids of the backfill collide when a chat repeats one id twice; only then, unless ids hold colons
  (`ChatBackfill.DistinctIff`), and otherwise through a colon (`ChatBackfill.ColonCollides`).  The migration then fails.
- A source database whose partial migration history uses the number of a missing entry, or with two version
  rows, cannot be migrated by any process, ever (`MigrationProtocol.MigratableIff`,
  `MigrationProtocol.BlockedSourceStays`, `MigrationProtocol.BlockedSources`).
- Tasks created without a chat id stay listed for ever, and as blocking (`TaskRegistry.AllDone`,
  `TaskRegistry.BlockingIsExact`).
- The table method that moves a folder does not check for cycles (`FolderForest.ReparentKeepsForestIff`).

## Model

| member | source | states |
|---|---|---|
| BatchEmbedding.SplitIsPointwise | backend/open_webui/retrieval/utils.py:59-80 | However often batches are halved, a normal return of a provider that embeds pointwise is the pointwise embedding, in order. |
| BatchEmbedding.SplitCallBound | backend/open_webui/retrieval/utils.py:59-80 | Splitting a batch of n > 0 texts makes at most 2n - 1 calls, whatever the provider answers. |
| BatchEmbedding.SplitCallBoundIsTight | backend/open_webui/retrieval/utils.py:59-80 | A provider that takes single texts only is called exactly 2n - 1 times. |
| BatchEmbedding.ChunkTooLargeIsGenuine | backend/open_webui/retrieval/utils.py:54-80 | `ChunkTooLargeError` exhibits a batch of at most one text that one of the run's own calls rejected. |
| BatchEmbedding.FailureIsGenuine | backend/open_webui/retrieval/utils.py:59-80 | Every other failure is one that the provider reported in the run, for some stretch of the texts. |
| BatchEmbedding.HalvesSuffice | backend/open_webui/retrieval/utils.py:69-78 | Batches are cut in the middle: when halves are accepted, one rejection costs exactly two more calls. |
| BatchEmbedding.SplitSucceeds | backend/open_webui/retrieval/utils.py:59-80 | If every single text is accepted and nothing else fails, splitting returns vectors. |
| BatchEmbedding.RunPool | backend/open_webui/retrieval/utils.py:535-540 | For every order in which the pool finishes the batches, the result list (or the first error by position) is the sequential one. |
| BatchEmbedding.RunInTurn | backend/open_webui/retrieval/utils.py:541-542 | The sequential branch stops at the first batch that raises, and otherwise keeps all results in order. |
| BatchEmbedding.Extend | backend/open_webui/retrieval/utils.py:544-547 | The final loop concatenates the vectors of all batches. |
| BatchEmbedding.GenerateMultiple | backend/open_webui/retrieval/utils.py:505-547 | Both branches, under every completion order, compute one function of texts, batch size and provider. |
| BatchEmbedding.SortingResultsIsIdle | backend/open_webui/retrieval/utils.py:539-540 | The sort by start index never changes what the pool returns. |
| BatchEmbedding.ConcatIsPointwise | backend/open_webui/retrieval/utils.py:507-546 | Batches cover the texts without gap or overlap: their concatenated results are the pointwise embedding of the rest of the list. |
| BatchEmbedding.GenerateIsPointwiseIff | backend/open_webui/retrieval/utils.py:505-547 | A normal return is the pointwise embedding in input order exactly when the batch size is positive or there are no texts; a negative size returns nothing. |
| BatchEmbedding.GenerateSucceeds | backend/open_webui/retrieval/utils.py:505-547 | With a positive batch size and single texts accepted, no error is raised. |
| BatchEmbedding.GenerateFailsAt | backend/open_webui/retrieval/utils.py:505-547 | An error is that of the first batch to fail, batches starting every `size` texts: `ChunkTooLargeError`, or the batch's start; a zero size raises before any call. |
| MergeResults.MergeHit | backend/open_webui/retrieval/utils.py:306-318 | One step of the dictionary of hashes is one update of the list of best entries, for an injective hash. |
| MergeResults.MergeOneResult | backend/open_webui/retrieval/utils.py:301-318 | One result list is merged hit by hit; entries that are not text are passed over and `zip` stops at the shortest list. |
| MergeResults.MergeAndSortQueryResults | backend/open_webui/retrieval/utils.py:297-334 | The whole function computes the merge specification on the hits of all lists in order. |
| MergeResults.HitsAreTriples | backend/open_webui/retrieval/utils.py:304-307 | The hits of a list are the triples at its string documents, in order, each document with its own score and its own metadata, as far as all three lists go. |
| MergeResults.AllHitsRunOn | backend/open_webui/retrieval/utils.py:301-318 | List after list. |
| MergeResults.CombineIsBest | backend/open_webui/retrieval/utils.py:299-320 | The combined entries are one per distinct document, in order of first appearance, each the first hit reaching that document's maximum. |
| MergeResults.OneBestIsUnique | backend/open_webui/retrieval/utils.py:299-320 | That description has exactly one solution. |
| MergeResults.MergeIsStableTopK | backend/open_webui/retrieval/utils.py:320-327 | The result is the first k of any stable descending sort of those entries; it raises exactly when there are entries and the cut leaves none. |
| MergeResults.MergeFailsIff | backend/open_webui/retrieval/utils.py:324-327 | For k >= 0 the merge raises exactly for k = 0 with a non-empty list of hits. |
| Sorting.SortIsStable | backend/open_webui/retrieval/utils.py:320-322 | The sort is descending and keeps, for every score, the entries with it in their order. |
| Sorting.StableSortIsUnique | backend/open_webui/retrieval/utils.py:320-322 | There is only one stable descending sort, so any correct `sort` gives the same list. |
| Sorting.SortIsRanked | backend/open_webui/retrieval/utils.py:320-322 | The sorted list holds every position once, higher scores first and equal scores as they stood. |
| Sorting.TakeIsTheFront | backend/open_webui/retrieval/utils.py:325 | The slice is the front of the list, of at most k elements; a negative k counts from the end. |
| CollectionQuery.SearchEach | backend/open_webui/retrieval/utils.py:364-377 | Empty names, empty answers and raising searches leave nothing behind; the others are kept in order. Each search has its own outcome, repeated names included. |
| CollectionQuery.QueryCollection | backend/open_webui/retrieval/utils.py:354-379 | The result is the merge of all answers, query by query and collection by collection. |
| CollectionQuery.RankByCount | backend/open_webui/retrieval/utils.py:320-327 | In a sorted list of distinct documents, position i scores at least t exactly when more than i documents do. |
| CollectionQuery.CutKeepsCounts | backend/open_webui/retrieval/utils.py:354-379 | Cutting each list to k keeps, for every score, the number of documents that reach it, up to k. |
| CollectionQuery.CutLosesNothing | backend/open_webui/retrieval/utils.py:297-334 | For sorted lists without duplicates and every k, cutting each list to its own top k first changes nothing: the merge returns the scores of the top k documents over the uncut lists, each at its maximum. |
| CollectionQuery.QueryCollectionIsGlobalTopK | backend/open_webui/retrieval/utils.py:354-379 | If every search returns the top k of such a list, the scores returned are those of the top k over all uncut lists, for every k: by counting, position i reaches t exactly when more than i documents do. |
| CollectionQuery.AnswersArePlaced | backend/open_webui/retrieval/utils.py:360-377 | The answers are those of exactly the named collections whose search comes back with something, by query and then by collection, each in its place. |
| CollectionQuery.RankedTopScores | backend/open_webui/retrieval/utils.py:320-327 | The first k scores, by counting: as many as there are documents, up to k, and position i reaches t exactly when more than i documents do. |
| Cosine.SumOfSquares | backend/open_webui/retrieval/utils.py:1042-1047 | The loop computes the sum of squares. |
| Cosine.DotProduct | backend/open_webui/retrieval/utils.py:1048-1051 | The loop computes the dot product over the zipped prefix. |
| Cosine.SumsRunOn | backend/open_webui/retrieval/utils.py:1042-1051 | Both sums are added up term by term. |
| Cosine.ScoreTimesLengths | backend/open_webui/retrieval/utils.py:1048-1052 | For vectors that are not zero, the score times the two lengths is the dot product. |
| Cosine.CosineSimilarityScores | backend/open_webui/retrieval/utils.py:1038-1053 | One score per document, each the similarity to the query and each in [-1, 1]. |
| Cosine.CauchySchwarz | backend/open_webui/retrieval/utils.py:1048-1051 | The squared dot product of the zipped prefix is at most the product of the full sums of squares, for any two lengths. |
| Cosine.SimilarityIsBounded | backend/open_webui/retrieval/utils.py:1042-1052 | Every score lies in [-1, 1], for zero vectors and unequal lengths too. |
| Cosine.BoundsAreReached | backend/open_webui/retrieval/utils.py:1042-1052 | A vector that is not zero scores exactly 1 against itself and -1 against its opposite. |
| Cosine.ZeroScoresZero | backend/open_webui/retrieval/utils.py:1042-1052 | A zero vector scores 0 against every vector. |
| Rerank.ZipDocuments | backend/open_webui/retrieval/utils.py:1076 | Pairs documents with scores as far as both go. |
| Rerank.KeepPassing | backend/open_webui/retrieval/utils.py:1077-1080 | Keeps, in order, the pairs at or above a threshold that is not zero. |
| Rerank.CompressDocuments | backend/open_webui/retrieval/utils.py:1055-1092 | The documents kept are the best n of those that reach the threshold, by position: higher scores first, ties as they stood, nothing better left out; each carries its own score in its metadata. |
| Rerank.QueryDocWithHybridSearch | backend/open_webui/retrieval/utils.py:220-273 | For all limits, zero included: the three lists are the scores, contents and stamped metadata of the best min(k, k_reranker) documents that reach the threshold, by position, ties as they stood; there is no answer exactly when k < k_reranker and k is zero or nothing reaches it. |
| Rerank.TopAt | backend/open_webui/retrieval/utils.py:1076-1086 | Zipping, filtering, sorting and cutting keeps exactly the best n positions. |
| Rerank.HybridIsOneCut | backend/open_webui/retrieval/utils.py:220-246 | For all limits, zero included, the two cuts are one: the stable top min(k, k_reranker) of the passing documents, unless the vector search takes over. |
| Rerank.RerankGuarantee | backend/open_webui/retrieval/utils.py:240-246 | For all limits, zero included: in non-increasing order, exactly min(passing, k, k_reranker) documents, all passing, and no passing document left out scores above a kept one. |
| Rerank.FallsBackIff | backend/open_webui/retrieval/utils.py:241-273 | The vector search takes over exactly when k < k_reranker and either k is zero or no document passes: unpacking an empty `zip` raises. |
| Rerank.FallsBackByLength | backend/open_webui/retrieval/utils.py:241-273 | For negative limits as well: exactly when k < k_reranker and the two slices leave none of the passing documents. |
| Rerank.FallbackHappens | backend/open_webui/retrieval/utils.py:241-273 | One document below the threshold falls back for k = 1 but not for k = 2 with k_reranker = 2, and for k = 0 one above it falls back, as does an empty answer. |
| Utf8.EncodeChar | backend/open_webui/haloclaw/crypto.py:67-68 | A character takes one to four bytes, of which exactly the first is not a continuation byte. |
| Utf8.EncodeLayout | backend/open_webui/haloclaw/crypto.py:67-68 | The table in section 3 of RFC 3629: which bytes spell which number, and for which range. |
| Utf8.EncodeRunsOn | backend/open_webui/haloclaw/crypto.py:67-68 | The encoding of a text is that of its parts, one after the other. |
| Utf8.RoundTrip | backend/open_webui/haloclaw/crypto.py:46-68 | Decoding what was encoded returns the text. |
| Utf8.DecodeIsCanonical | backend/open_webui/haloclaw/crypto.py:46-47 | Strict decoding accepts nothing but encodings: no overlong forms, no surrogates. |
| Base64.RoundTrip | backend/open_webui/haloclaw/crypto.py:35-80 | The lenient decoder reads back what the encoder writes. |
| Base64.KnownAnswers | backend/open_webui/haloclaw/crypto.py:80 | Three of the examples in section 10 of RFC 4648. |
| Base64.DigitsAreTheAlphabet | backend/open_webui/haloclaw/crypto.py:80 | Table 1 of RFC 4648: capitals, small letters and figures in order, then two signs. |
| Base64.GroupIsANumber | backend/open_webui/haloclaw/crypto.py:80 | Each four digits are, in base 64, the number that their three bytes are in base 256. |
| Base64.NoiseIsSkipped | backend/open_webui/haloclaw/crypto.py:33-35 | A character outside the alphabet changes nothing, wherever it stands. |
| Base64.WholeGroupsDecode | backend/open_webui/haloclaw/crypto.py:33-35 | Without padding a text decodes exactly if it is cut between groups of four digits. |
| Base64.FortyThreeCharacters | backend/open_webui/haloclaw/crypto.py:33 | Every 43-character key over the alphabet, with `=` appended, decodes to 32 bytes. |
| Cbc.XorCancels | backend/open_webui/haloclaw/crypto.py:78-79 | Bitwise exclusive or on bytes undoes itself. |
| Cbc.XorIsBitwise | backend/open_webui/haloclaw/crypto.py:78-79 | Each bit of the result is set exactly if one of the two bits is. |
| Cbc.EncryptChains | backend/open_webui/haloclaw/crypto.py:78-79 | Block i of the ciphertext is the cipher of plaintext block i combined with ciphertext block i - 1, or with the initial block. |
| Cbc.ChainedIsEncrypt | backend/open_webui/haloclaw/crypto.py:78-79 | Nothing else is so chained. |
| Cbc.DecryptUnchains | backend/open_webui/haloclaw/crypto.py:37-38 | Block i of the plaintext is the inverse cipher of block i combined with block i - 1, or with the initial block. |
| Cbc.Encrypt | backend/open_webui/haloclaw/crypto.py:78-79 | The ciphertext is as long as the padded plaintext. |
| Cbc.Decrypt | backend/open_webui/haloclaw/crypto.py:37-38 | The plaintext is as long as the ciphertext. |
| Cbc.RoundTrip | backend/open_webui/haloclaw/crypto.py:37-79 | Chained decryption undoes chained encryption (section 6.2 of NIST SP 800-38A), for any block cipher that has an inverse, any key and any initial block. |
| MessageCrypto.UnpackPack | backend/open_webui/haloclaw/crypto.py:45-71 | Big-endian length framing is undone for every length below 2^32. |
| MessageCrypto.PadAligns | backend/open_webui/haloclaw/crypto.py:73-76 | Padding adds 1 to 32 bytes, aligns to 32, and is undone by the stripping of the decoder. |
| MessageCrypto.StripPadIsSlice | backend/open_webui/haloclaw/crypto.py:41-42 | What is stripped is what the slice `[:-n]` cuts, n being the last byte, zero and oversized ones included. |
| MessageCrypto.PlaintextLayout | backend/open_webui/haloclaw/crypto.py:71-76 | Byte by byte: 16 random bytes, 4 length bytes, message, receive id, and 1..32 pad bytes each holding the pad's length. |
| MessageCrypto.LayoutOnce | backend/open_webui/haloclaw/crypto.py:71-76 | Only one plaintext is laid out so. |
| MessageCrypto.WechatWireFormat | backend/open_webui/haloclaw/crypto.py:52-80 | What is sent is base64 of whole blocks that hold that layout, chained block by block from the first 16 bytes of the key. |
| MessageCrypto.WechatRoundTrip | backend/open_webui/haloclaw/crypto.py:18-80 | For every message, receive id, random prefix and key with which encryption succeeds, decryption returns exactly that message and id. |
| MessageCrypto.WechatReadsStandardPayload | backend/open_webui/haloclaw/crypto.py:18-49 | Every callback laid out, padded and chained like that is read, whoever made it. |
| MessageCrypto.WechatEncryptSucceedsIff | backend/open_webui/haloclaw/crypto.py:52-80 | With a 43-character key, encryption succeeds exactly for messages under 2^32 bytes. |
| MessageCrypto.WechatIsUnambiguous | backend/open_webui/haloclaw/crypto.py:18-80 | Equal ciphertexts under one key carry equal messages and ids. |
| MessageCrypto.FeishuReadsStandardPayload | backend/open_webui/haloclaw/crypto.py:83-109 | Decryption recovers the text of every payload made of an initial block and a padded text chained from it block by block (padding as in section 6.3 of RFC 5652). |
| StreamAssembly.MergeCall | backend/open_webui/haloclaw/tool_executor.py:275-289 | One fragment updates one entry of the map, creating it if need be; empty ids, names and arguments change nothing. |
| StreamAssembly.MergeDelta | backend/open_webui/haloclaw/tool_executor.py:274-289 | The inner loop folds all fragments of one delta into the map. |
| StreamAssembly.ReadLines | backend/open_webui/haloclaw/tool_executor.py:260-291 | The outer loop collects the content and the calls of all data lines that hold a delta, skips the others, and raises exactly when a line does. |
| StreamAssembly.ListCalls | backend/open_webui/haloclaw/tool_executor.py:296-299 | The calls are listed in ascending order of index: by strictly ascending keys, all of them, each with its own call. |
| StreamAssembly.JoinChunks | backend/open_webui/haloclaw/tool_executor.py:250-256 | Byte chunks are decoded one by one; the first that does not decode raises. |
| StreamAssembly.ExtractMessage | backend/open_webui/haloclaw/tool_executor.py:248-300 | The streaming branch raises with a chunk that does not decode or a line whose delta has an unexpected type; otherwise the message carries exactly the content and the calls of the deltas, calls by ascending index, and there is none for neither. |
| StreamAssembly.FoldIsIndexwise | backend/open_webui/haloclaw/tool_executor.py:274-289 | Each entry of the map depends on the fragments of its own index alone: last id, last name, joined arguments. |
| StreamAssembly.LastOneWins | backend/open_webui/haloclaw/tool_executor.py:282-286 | The last fragment with an id settles the id, the last with a name the name; without any, the first fragment's id and no name. |
| StreamAssembly.FragmentsRunOn | backend/open_webui/haloclaw/tool_executor.py:274-289 | The fragments of a call follow each other as in the stream. |
| StreamAssembly.ArgumentsRunOn | backend/open_webui/haloclaw/tool_executor.py:287-289 | So do the pieces of its arguments. |
| StreamAssembly.DeltasRunOn | backend/open_webui/haloclaw/tool_executor.py:268-274 | And content and calls, delta after delta. |
| StreamAssembly.InterleavingIsIrrelevant | backend/open_webui/haloclaw/tool_executor.py:260-299 | Streams with the same content and, per index, the same fragments give the same message, however they interleave. |
| StreamAssembly.FragmentationIsUndone | backend/open_webui/haloclaw/tool_executor.py:257-300 | However content and calls are fragmented, the assembled message carries exactly that content and those calls, by ascending index, with their ids, names and arguments. |
| StreamAssembly.RebuiltCarries | backend/open_webui/haloclaw/tool_executor.py:293-300 | The rebuilt message has the content if there is any, the calls by ascending index if there are any, and is missing for neither. |
| StreamAssembly.CarriesOnce | backend/open_webui/haloclaw/tool_executor.py:293-300 | There is one such message only. |
| StreamAssembly.StripIs | backend/open_webui/haloclaw/tool_executor.py:261 | Stripping takes off white space only, and leaves none at either end. |
| StreamAssembly.AsciiSpaces | backend/open_webui/haloclaw/tool_executor.py:261 | Which ASCII characters are white space. |
| StreamAssembly.LineHolds | backend/open_webui/haloclaw/tool_executor.py:260-265 | A line is read exactly if, stripped, it is `data: ` and a payload other than the end marker. |
| StreamAssembly.ChunkingIsIrrelevantIff | backend/open_webui/haloclaw/tool_executor.py:248-300 | Whatever the transport chunks, the result is that of the whole text when no chunk starts inside a character, and an exception otherwise. |
| StreamAssembly.ExtractionRaisesIff | backend/open_webui/haloclaw/tool_executor.py:248-300 | Assembly raises exactly when a chunk starts inside a character or a data line of the text raises. |
| StreamAssembly.CutCharacterRaises | backend/open_webui/haloclaw/tool_executor.py:251-254 | A two-byte character cut in two raises. |
| Utf8.CutOnBoundary | backend/open_webui/haloclaw/tool_executor.py:251-256 | A cut before anything but a continuation byte falls between two characters. |
| Utf8.DecodeEachIff | backend/open_webui/haloclaw/tool_executor.py:251-256 | Decoding chunk by chunk returns the text exactly when no chunk starts with a continuation byte, and fails otherwise. |
| SortedKeys.AscendingIsSorted | backend/open_webui/haloclaw/tool_executor.py:297-299 | The sorted keys are the keys, in strictly ascending order. |
| SortedKeys.SortedOnce | backend/open_webui/haloclaw/tool_executor.py:297-299 | There is one ascending listing only. |
| EventStream.RenderIsRead | backend/open_webui/haloclaw/tool_executor.py:260-265 | A stream of `data: ` events, with blank lines between and a final `[DONE]` (section 9.2 of the WHATWG HTML Standard), is read back as what its payloads hold, in order. |
| EventStream.StreamRaisesIff | backend/open_webui/haloclaw/tool_executor.py:248-300 | A rendered stream cut between characters raises exactly when one of its payloads does. |
| EventStream.StreamRoundTrip | backend/open_webui/haloclaw/tool_executor.py:248-300 | End to end: fragment a message, render the events, cut the bytes between characters; the message that comes back carries its content and its calls, by ascending index. |
| ToolLoop.CollectImages | backend/open_webui/haloclaw/tool_executor.py:150-167 | Appends exactly the images that the result of an image tool names. |
| ToolLoop.RunCall | backend/open_webui/haloclaw/tool_executor.py:95-117 | Runs one call, appends its result under its id and, for an image call, its images. |
| ToolLoop.RunCalls | backend/open_webui/haloclaw/tool_executor.py:95-117 | Appends one tool message per call, same ids and same order, each the outcome of its own call, and collects the images of image calls in order; equal calls may be answered differently. |
| ToolLoop.ExecuteToolLoop | backend/open_webui/haloclaw/tool_executor.py:30-125 | History, result and number of requests are those of the loop specification, on every run. |
| ToolLoop.LoopKeeps | backend/open_webui/haloclaw/tool_executor.py:58-125 | From every round on, with tools that keep state: what is appended is whole rounds, and the images are those held, then the tools' in call order, then the inline ones. |
| ToolLoop.LoopIsTraced | backend/open_webui/haloclaw/tool_executor.py:58-125 | Request by request: the loop goes on exactly while there are calls and rounds left, and reports the text of the last reply that has any; an error alone, an answer as it is, an apology if nothing is left. |
| ToolLoop.ImagesRunOn | backend/open_webui/haloclaw/tool_executor.py:95-117 | Images are collected call after call. |
| ToolLoop.ItemsRunOn | backend/open_webui/haloclaw/tool_executor.py:154-161 | And item after item. |
| ToolLoop.ImagesOfItems | backend/open_webui/haloclaw/tool_executor.py:154-165 | An item brings one image at most, `url` before `image_url`, and a text only if it looks like an address. |
| ToolLoop.BadArgumentsAreNone | backend/open_webui/haloclaw/tool_executor.py:101-104 | Arguments that are no JSON are taken for none. |
| ToolLoop.RequestBound | backend/open_webui/haloclaw/tool_executor.py:61-68 | At most `max_rounds` completions are requested. |
| ToolLoop.EveryRun | backend/open_webui/haloclaw/tool_executor.py:58-125 | All of it for a whole run, whatever each completion and each single call answers: request bound, the given history a prefix, each request made with the messages of its time, each assistant message with calls followed by exactly its results, images in order, and the text, error or apology that the last replies call for. |
| DeepMerge.Merge | backend/open_webui/models/users.py:22-46 | The merged keys are those of both sides. |
| DeepMerge.DeepMergeDict | backend/open_webui/models/users.py:22-46 | The loop over the patch computes the merge, in whatever order the keys come. |
| DeepMerge.SelfMerge | backend/open_webui/models/users.py:22-46 | Merging an object into itself changes nothing. |
| DeepMerge.MergeIsIdempotent | backend/open_webui/models/users.py:22-46 | Applying a patch twice is applying it once, for any replace paths. |
| DeepMerge.UntouchedIsKept | backend/open_webui/models/users.py:22-46 | Every path the patch does not touch reads as before. |
| DeepMerge.PatchIsContained | backend/open_webui/models/users.py:22-46 | Every leaf of the patch, and every replaced subtree, is in the result. |
| DeepMerge.BranchIsMerged | backend/open_webui/models/users.py:36-44 | Where the patch goes on below a path that is not replaced, objects are merged key by key, and anything else gives way. |
| DeepMerge.PatchesCommuteIff | backend/open_webui/models/users.py:22-46 | Without replace paths, two patches commute on all settings exactly when wherever both name a key they agree or both go deeper. |
| DeepMerge.LeafAgainstBranch | backend/open_webui/models/users.py:36-44 | Sharing no leaf path is not enough: `{a: 1}` and `{a: {b: 2}}` do not commute. |
| UserSettings.UsersTable.PatchUserSettingsById | backend/open_webui/models/users.py:340-379 | One call: it fails exactly for a missing user or an unreadable revision, conflicts exactly when the expected revision is not the current one, and otherwise stores the next revision and, path by path, what the patch leaves alone, brings, replaces and merges; without success nothing changes. |
| UserSettings.StoredIsPatched | backend/open_webui/models/users.py:362-367 | The stored settings, path by path. |
| UserSettings.RevisionOfValue | backend/open_webui/models/users.py:354 | What the stored revision counts as, by type: missing and false values are zero, lists and objects raise. |
| UserSettings.TruncateIsTowardZero | backend/open_webui/models/users.py:354 | A fractional revision is cut toward zero. |
| UserSettings.RunLaw | backend/open_webui/models/users.py:340-379 | Over any interleaving, the revision is the initial one plus the number of successes, and the settings are the fold of the successful patches in commit order. |
| UserSettings.ExpectedOfSuccess | backend/open_webui/models/users.py:356-360 | A success that expected a revision expected the initial one plus the successes before it. |
| UserSettings.OneWinnerPerRevision | backend/open_webui/models/users.py:356-360 | Of several patches expecting one revision at most one succeeds. |
| UserSettings.RevisionIsNotPatched | backend/open_webui/models/users.py:362-367 | A patch cannot set the revision. |
| FolderForest.SiblingsAreApart | backend/open_webui/models/folders.py:304-321 | The subtrees of two children of one folder do not meet. |
| FolderForest.ChildIsSmaller | backend/open_webui/models/folders.py:304-321 | A child's subtree is strictly smaller, which is why the recursion ends. |
| FolderForest.InsertKeepsForest | backend/open_webui/models/folders.py:69-95 | Inserting a folder under an id that no row has or refers to keeps the forest, whatever its parent. |
| FolderForest.ReparentKeepsForestIff | backend/open_webui/models/folders.py:174-195 | Moving a folder keeps the forest exactly when the new parent is neither the folder nor filed in it. |
| FolderStore.Store.InsertNewFolder | backend/open_webui/models/folders.py:69-95 | Adds exactly the new row, or nothing when the id is taken. |
| FolderStore.Store.UpdateFolderParentId | backend/open_webui/models/folders.py:174-195 | Changes the parent of exactly the one row with this id and user. |
| FolderStore.Store.DeleteChatsIn | backend/open_webui/models/chats.py:1224-1246 | Removes exactly the user's chats in one folder and their message rows. |
| FolderStore.Store.DeleteChildren | backend/open_webui/models/folders.py:305-319 | Removes exactly what is filed in the folder at any depth, although rows vanish while it runs; without `delete_chats` no chat and no message. |
| FolderStore.Store.DeleteChild | backend/open_webui/models/folders.py:309-319 | One child: its subtree and its row, and with `delete_chats` their chats and messages, without it none. |
| FolderStore.Store.DeleteFolder | backend/open_webui/models/folders.py:291-327 | Removes exactly the folder and everything filed in it, and no other user's rows. With `delete_chats` a chat goes exactly if it is the user's and filed in one of them, a message exactly if it belongs to such a chat; without it all stay. What remains is a forest. |
| FolderStore.AllCleared | backend/open_webui/models/folders.py:305-319 | The subtrees of all children are the whole subtree. |
| FolderStore.NextChildIsWhole | backend/open_webui/models/folders.py:309-319 | The next child's subtree is untouched by the deletions before it. |
| FolderStore.NoOrphans | backend/open_webui/models/folders.py:291-327 | No remaining folder of the user is filed in a removed one. |
| FolderStore.PurgedExactly | backend/open_webui/models/chats.py:1224-1246 | A chat goes exactly if it is the user's and in a removed folder; a message exactly if its chat goes; the others stay as often as they were there. |
| FolderStore.WithoutExactly | backend/open_webui/models/folders.py:321-323 | A row goes exactly if its id is one of those to go; the others stay as often as they were there. |
| FolderStore.OthersAreSafe | backend/open_webui/models/folders.py:291-327 | No row of another user goes. |
| FolderListing.GetChildren | backend/open_webui/models/folders.py:118-124 | The recursive helper appends the listing of the subtree to the shared list. |
| FolderListing.GetChildrenFolders | backend/open_webui/models/folders.py:111-133 | `None` exactly when the user has no such folder, otherwise the listing. |
| FolderListing.ListingIsTheSubtree | backend/open_webui/models/folders.py:111-133 | The listing holds exactly the rows that deletion would remove below the folder, each once, and nothing is listed after a folder it is filed in. |
| ChatTable.Table.NextUserChatTimestamp | backend/open_webui/models/chats.py:235-240 | The clock: one more than the user's latest stamp if that is not in the past, otherwise the wall clock. |
| ChatTable.Table.InsertChat | backend/open_webui/models/chats.py:275-307 | A new row with the form's fields and the next stamp, which is one step of the clock; a taken id changes nothing. |
| ChatTable.Table.UpdateChatById | backend/open_webui/models/chats.py:353-373 | Replaces the payload of the one row and stamps it, one step of the clock. |
| ChatTable.Table.ToggleChatPinnedById | backend/open_webui/models/chats.py:584-594 | Toggles the pin of the one row and stamps it, one step of the clock. |
| ChatTable.Table.ToggleChatArchiveById | backend/open_webui/models/chats.py:596-606 | Toggles the archive flag of the one row and stamps it, one step of the clock. |
| ChatTable.Table.UpdateChatFolderId | backend/open_webui/models/chats.py:1029-1042 | Files the one row, unpins and stamps it, one step of the clock. |
| ChatTable.Table.InsertSharedChat | backend/open_webui/models/chats.py:503-535 | A chat without a share id gets a copy under its own user and clock, and the copy's id unless another chat has it; otherwise nothing changes. |
| ChatTable.Table.UpdateSharedChat | backend/open_webui/models/chats.py:537-559 | An existing copy gets the chat's payload and a stamp, a missing one is inserted. |
| ChatTable.Table.ReplaceChats | backend/open_webui/models/chats.py:309-351 | It goes through exactly if no new id is given twice or belongs to a row that stays. Then exactly the user's rows and the shared copies of them go, every other row is unchanged, and each form has its row, in order one second apart; otherwise nothing changes. |
| ChatTable.ReplaceExactly | backend/open_webui/models/chats.py:309-351 | The same of the clock's operation, row by row. |
| ChatTable.ShareExactly | backend/open_webui/models/chats.py:503-535 | What sharing does to the table, row by row. |
| ChatTable.DeleteAllExactly | backend/open_webui/models/chats.py:1209-1222 | What deleting a user's chats leaves, row by row. |
| ChatTable.QuietExactly | backend/open_webui/models/chats.py:571-615 | The operations that stamp nothing: which rows they change, and in which field. |
| ChatTable.AddRows | backend/open_webui/models/chats.py:314-326 | The new rows, stamped in order, or the first collision. |
| ChatTable.Table.DeleteChatById | backend/open_webui/models/chats.py:1183-1194 | Exactly the chat and its shared copies go. |
| ChatTable.Table.DeleteChatsByUserId | backend/open_webui/models/chats.py:1209-1222 | Exactly the user's chats and their shared copies go. |
| ChatClock.Latest | backend/open_webui/models/chats.py:237-239 | The aggregate bounds all stamps of the user and is one of them; none for no rows. |
| ChatClock.StampIsNewest | backend/open_webui/models/chats.py:235-240 | A stamp is at least the wall clock and later than every row of the user. |
| ChatClock.StampIsLeast | backend/open_webui/models/chats.py:235-240 | No earlier number would do: the stamp is the least one not before the clock and later than every row of the user, and positive for a user without rows. |
| ChatClock.ApplyImplements | backend/open_webui/models/chats.py:235-606 | Whatever the clock reads, each operation does to the table what moving the stamped chats to the front does to a list. |
| ChatClock.RunImplements | backend/open_webui/models/chats.py:235-606 | After any run from an empty table, under any clock, stamps fall strictly along the replayed list within each user. |
| ChatClock.StampsAreDistinct | backend/open_webui/models/chats.py:235-606 | In every reachable state one user's chats have pairwise distinct `updated_at`. |
| ChatClock.TouchedIsNewest | backend/open_webui/models/chats.py:235-240 | The chat just inserted or touched is strictly the newest of its user, from any table. |
| ChatClock.ReplaceRestoresOrder | backend/open_webui/models/chats.py:309-351 | Bulk replacement gives distinct stamps even if there were none before. |
| ChatClock.ListingIgnoresTheClock | backend/open_webui/models/chats.py:630-650 | Two runs of the same operations under different clocks list a user's chats by `updated_at` in the same, only possible order. |
| TaskRegistry.Registry.CleanupTask | backend/open_webui/tasks.py:12-23 | The callback is one step; a list that becomes empty is dropped. |
| TaskRegistry.Registry.CreateTask | backend/open_webui/tasks.py:26-47 | Creation is one step on all three maps. |
| TaskRegistry.Registry.SetCurrentTaskBlocksCompletion | backend/open_webui/tasks.py:50-66 | Sets the flag of the running task if it is registered, and says whether it was. |
| TaskRegistry.Registry.StopTask | backend/open_webui/tasks.py:98-114 | Unknown tasks are an error, a task's own exception is raised on, and only an observed cancellation removes the task. |
| TaskRegistry.Registry.ListTaskIdsByChatId | backend/open_webui/tasks.py:83-95 | A copy of the list, or its ids whose flag is set or missing. |
| TaskRegistry.StepKeepsDescription | backend/open_webui/tasks.py:12-114 | Every step keeps the three maps exactly what the history of creations, callbacks, stops and flags says. |
| TaskRegistry.EveryRun | backend/open_webui/tasks.py:12-114 | So does every run, in any order of steps. |
| TaskRegistry.LiveIff | backend/open_webui/tasks.py:12-47 | In terms of the steps: a task is live exactly from its creation to its callback. |
| TaskRegistry.LiveTask | backend/open_webui/tasks.py:26-66 | Its chat is the one it was created for, and its flag that of the last step that set it before a stop, or else the one it was created with. |
| TaskRegistry.CreatedAt | backend/open_webui/tasks.py:26-47 | What was created is what the creating steps say, in order. |
| TaskRegistry.ListsAreInOrder | backend/open_webui/tasks.py:41-45 | Every list is in order of creation. |
| TaskRegistry.ListsAreExact | backend/open_webui/tasks.py:12-47 | A chat's list holds, once each, exactly its tasks whose callback has not run, is never kept empty, and each such task has metadata. |
| TaskRegistry.AllDone | backend/open_webui/tasks.py:12-47 | When all callbacks have run the maps are empty, except the lists of tasks created without a chat id, which still hold every one of them. |
| TaskRegistry.BlockingIsExact | backend/open_webui/tasks.py:83-95 | The tasks that keep a chat waiting are its live ones with the flag up; without a chat id also all finished ones. |
| TaskRegistry.BlockingAt | backend/open_webui/tasks.py:91-95 | The filtered list keeps the order. |
| RateLimiter.Limiter.Admit | backend/open_webui/external_api/router.py:147-154 | The verdict is that of counting the client's earlier requests of the minute; every metered request is counted, refused or not. |
| RateLimiter.BucketAdmits | backend/open_webui/external_api/router.py:147-154 | Per client and minute exactly the first `limit` requests are let through. |
| RateLimiter.SlidingWindowBound | backend/open_webui/external_api/router.py:147-154 | In any 60-second window of readings, in any order, at most twice the limit are let through. |
| RateLimiter.SlidingWindowBoundIsTight | backend/open_webui/external_api/router.py:147-154 | For every limit, twice the limit are let through within one second around a full minute. |
| RateLimiter.ClientsAreIndependent | backend/open_webui/external_api/router.py:147-154 | No verdict depends on other clients' requests. |
| RateLimiter.NoLimitIsNone | backend/open_webui/external_api/router.py:147-148 | Without a limit everything passes, and none of it is counted. |
| JsonTexts.CanBeMet | backend/open_webui/external_api/router.py:779-884 | What the translations ask of printing and parsing, that every printed value parses back, can be met: a prefix-free code of all JSON values meets it. |
| GatewayTranslation.ToMessage | backend/open_webui/external_api/router.py:764-786 | The texts are joined; one call for each tool use, in order, with its id, name and printed input, or what fills in for them. |
| GatewayTranslation.ToBlocks | backend/open_webui/external_api/router.py:872-892 | The text, if any, and then one tool use for each call, in order, with its id, name and parsed arguments; arguments that do not parse are kept under `_raw`. |
| GatewayTranslation.CallsAt | backend/open_webui/external_api/router.py:774-786 | The calls stand for exactly the tool uses, in order. |
| GatewayTranslation.UsesAt | backend/open_webui/external_api/router.py:875-892 | The tool uses are made of exactly the calls, in order. |
| GatewayTranslation.TextRunsOn | backend/open_webui/external_api/router.py:772-773 | Texts are joined in order. |
| GatewayTranslation.RoundTrip | backend/open_webui/external_api/router.py:764-892 | Every list of blocks comes back as the joined text, if any, and the tool uses with defaults filled in. |
| GatewayTranslation.ToolUsesSurviveIff | backend/open_webui/external_api/router.py:764-892 | The tool uses come back unchanged and in order exactly when each has a non-empty id, a name, and an input that is true or `{}`. |
| GatewayTranslation.BackIsNormal | backend/open_webui/external_api/router.py:872-892 | What comes back is in normal form. |
| GatewayTranslation.FixedIff | backend/open_webui/external_api/router.py:764-892 | The fixed points of the round trip are exactly the normal forms. |
| MigrationDetect.FamiliesExclude | backend/open_webui/runtime_migrations.py:423-468 | No database fits the fingerprints of two families. |
| MigrationDetect.EveryTableCounts | backend/open_webui/runtime_migrations.py:423-468 | The least tables of each family are recognised, none of them can be missing, and the oldest family must have none of the later tables. |
| MigrationDetect.SourceIff | backend/open_webui/runtime_migrations.py:362-420 | A database is taken for a family exactly when it is not already migrated and the family's fingerprint fits: the revision has no say. |
| MigrationDetect.OtherwiseIff | backend/open_webui/runtime_migrations.py:362-420 | Exactly when the answer is fresh, already migrated, or unknown. |
| MigrationDetect.BookkeepingIsInvisible | backend/open_webui/runtime_migrations.py:362-420 | The state and data-migration tables do not change which family is detected. |
| MigrationDetect.EmptyIsThenUnknown | backend/open_webui/runtime_migrations.py:121-125 | An empty database is unknown once the bookkeeping of a first run has been committed. |
| MigrationDetect.SeedMigratehistory | backend/open_webui/runtime_migrations.py:1697-1727 | The loop computes the seeded history, or fails where an insertion breaks the primary key. |
| MigrationDetect.SeedIff | backend/open_webui/runtime_migrations.py:1697-1727 | Seeding fails exactly when a row has the number of a missing name, and otherwise appends exactly the missing names, each under its own number, in ascending order. |
| MigrationDetect.SeedKeepsNumbersApart | backend/open_webui/runtime_migrations.py:1697-1727 | No number is given twice. |
| MigrationDetect.SeedCompletes | backend/open_webui/runtime_migrations.py:1697-1763 | A seeded history keeps its rows and counts as complete. |
| MigrationDetect.StampIsRecognised | backend/open_webui/runtime_migrations.py:1730-1757 | A stamped database is detected as migrated. |
| MigrationDetect.SeedIsRecognised | backend/open_webui/runtime_migrations.py:381-387 | So is a seeded one, whatever its version row says. |
| MigrationRun.Connection.WriteState | backend/open_webui/runtime_migrations.py:931-963 | Appends one row, creating the table if need be. |
| MigrationRun.Connection.EnsureNoIncompleteState | backend/open_webui/runtime_migrations.py:669-683 | Passes exactly when there is no row or the latest one says completed. |
| MigrationRun.Connection.RunPostHaloDataMigrations | backend/open_webui/runtime_migrations.py:914-928 | The backfill and then the cleanup, each unless its key is on record; both keys are then recorded and nothing else changes; it fails exactly if one raises. |
| MigrationRun.Connection.StampHaloHead | backend/open_webui/runtime_migrations.py:1730-1757 | Leaves the one target version, or fails on two version rows. |
| MigrationRun.Connection.Transform | backend/open_webui/runtime_migrations.py:163-184 | The work between the two commits, a run of the protocol: it succeeds exactly if nothing raises and the source can be migrated, and then everything is rewritten, seeded, stamped, marked and recorded. |
| MigrationRun.Connection.Try | backend/open_webui/runtime_migrations.py:150-192 | The body of the `try` statement: all of the migration and two state rows, or nothing but the first of them. |
| MigrationRun.Connection.Attempt | backend/open_webui/runtime_migrations.py:150-208 | The `try` statement, a run of the protocol: done, with the whole migration and two state rows, exactly if everything works and the source can be migrated; otherwise nothing but the state rows of the attempt. |
| MigrationRun.Connection.UnderLock | backend/open_webui/runtime_migrations.py:119-208 | Every case of the run under the lock, each of them a run of the protocol by that process alone. |
| MigrationRun.Connection.EnsureRuntimeMigrated | backend/open_webui/runtime_migrations.py:115-208 | Every case: unknown databases and switched-off migration are refused, as is a latest row that does not say completed, and nothing is written; otherwise the attempt, behind a backup of the database as it was; without anything to migrate, the missing data migrations. It is a run of the protocol; after an attempt left on record it refuses, after a completed migration it changes nothing. |
| MigrationProtocol.PostIsIdempotent | backend/open_webui/runtime_migrations.py:726-928 | A data migration is never repeated, not even by a process that would do it differently. |
| MigrationProtocol.PostHolds | backend/open_webui/runtime_migrations.py:914-928 | The data migrations run in order, each unless on record, and mark both keys; they raise exactly if one of them does. |
| MigrationProtocol.TargetIsWhole | backend/open_webui/runtime_migrations.py:163-184 | The target holds the rewritten tables after both data migrations, the history with every missing name, the one target version, and both keys. |
| MigrationProtocol.StepKeepsInv | backend/open_webui/runtime_migrations.py:115-208 | The protocol's invariant survives every step of every process. |
| MigrationProtocol.RunKeepsInv | backend/open_webui/runtime_migrations.py:115-208 | And so every interleaving. |
| MigrationProtocol.AllOrNothing | backend/open_webui/runtime_migrations.py:115-208 | Over every interleaving, crash and error: the committed database is the source with the rows of one attempt, or all that some process makes of it (tables rewritten, backfilled and cleaned up, history seeded, version stamped, keys marked) with a started and a completed row; migrated at most once; every backup is the untouched source. |
| MigrationProtocol.MutualExclusion | backend/open_webui/runtime_migrations.py:316-342 | No two processes are past the lock together. |
| MigrationProtocol.MigratableIff | backend/open_webui/runtime_migrations.py:163-184 | A source can be migrated exactly when its tables can be rewritten, no missing entry's number is taken in its history, it has at most one version row, and the data migrations do not raise. |
| MigrationProtocol.BlockedSourceStays | backend/open_webui/runtime_migrations.py:163-204 | With such a number taken, or with two version rows, no run of any processes ever commits anything but state rows. |
| MigrationProtocol.BlockedSources | backend/open_webui/runtime_migrations.py:1697-1757 | Such sources exist among the supported ones: a foreign row under the last number, and two version rows, on the tables of version 0.8.0. |
| MigrationProtocol.UnmigratableStays | backend/open_webui/runtime_migrations.py:163-204 | A source that no process can migrate is never changed. |
| MigrationProtocol.OnRecordIsStuck | backend/open_webui/runtime_migrations.py:150-204 | A started or failed row with the lock free and no completion leaves every process outside the migration. |
| MigrationProtocol.CrashLeavesStuck | backend/open_webui/runtime_migrations.py:150-161 | A crash right after the first commit leads to such a state. |
| MigrationProtocol.StuckForever | backend/open_webui/runtime_migrations.py:669-683 | From then on no run ever writes again. |
| MigrationProtocol.StuckRunsRefuse | backend/open_webui/runtime_migrations.py:669-683 | Over every later run, a process that starts there is on its way to the check, refused, or crashed: it never migrates and never ends otherwise. |
| MigrationProtocol.CheckRefuses | backend/open_webui/runtime_migrations.py:669-683 | Whichever row the query takes for the latest, the check refuses. |
| MigrationProtocol.CompletedForever | backend/open_webui/runtime_migrations.py:372-387 | After completion, over every later run of any processes, the database never changes, is not migrated again and is detected as migrated. |
| MigrationProtocol.CompletedRunsServe | backend/open_webui/runtime_migrations.py:121-125 | A process that starts after completion is never refused and never migrates. |
| MigrationProtocol.RestampedIsRecognised | backend/open_webui/runtime_migrations.py:381-387 | Even with another version row, the seeded history tells. |
| MigrationProtocol.CleanRunMigrates | backend/open_webui/runtime_migrations.py:119-192 | If nothing raises in it and nothing disturbs it, a process migrates the source, wholly. |
| ChatBackfill.InsertMessages | backend/open_webui/runtime_migrations.py:1461-1505 | The inner loop extends the table by the chat's messages with a role, or stops at the first value that cannot be stored or id given out twice. |
| ChatBackfill.Backfill | backend/open_webui/runtime_migrations.py:1443-1505 | One row per message object with a role, chat by chat and in order, with its chat, user, role and body, under the id it asks for or that id prefixed if an earlier row has it; no id twice. It fails exactly when a value cannot be converted or stored, or two rows would get one id. |
| ChatBackfill.ItemsAreMessages | backend/open_webui/runtime_migrations.py:1443-1470 | What is inserted is exactly the message objects with a role, each once and in order, asking for their id or else their key. |
| ChatBackfill.AssignedIs | backend/open_webui/runtime_migrations.py:1467-1470 | An id is prefixed with the chat's exactly if an earlier row has it. |
| ChatBackfill.AssignedAt | backend/open_webui/runtime_migrations.py:1467-1470 | Without colons, exactly the ids asked for before are prefixed with the chat's. |
| ChatBackfill.DistinctIff | backend/open_webui/runtime_migrations.py:1467-1470 | Without colons, all row ids are distinct exactly when no chat repeats one id twice. |
| ChatBackfill.AcrossChats | backend/open_webui/runtime_migrations.py:1467-1470 | Ids may repeat across chats at will. |
| ChatBackfill.BackfillSucceedsIff | backend/open_webui/runtime_migrations.py:1443-1505 | With distinct chat ids, distinct ids within each chat and no colons, the messages are accepted exactly when every value can be stored. |
| ChatBackfill.ColonCollides | backend/open_webui/runtime_migrations.py:1443-1470 | With a colon in an id it fails: three chats with distinct ids, read in ascending order of id, give one row id twice. |

## Left out

- FolderStore.Store.DeleteFolder: requires a forest; on a cyclic table the recursion of the code does not end, and the exception it then meets is not part of this model.
- FolderListing.GetChildren: requires a forest, for the same reason.
- MergeResults.MergeAndSortQueryResults: takes MD5 to be injective; documents with equal digests would be taken for one.
- CollectionQuery.QueryCollectionIsGlobalTopK: speaks of scores, not of documents; among documents of equal score at the cut the choice may differ.
- Cosine.CosineSimilarityScores: reals are exact; IEEE rounding, infinities and NaN are not modelled.
- Rerank.CompressDocuments: documents are values; that the code writes the score into the metadata object it was given, which callers may share, is not captured.
- Rerank.FallsBackIff: the answer of the fallback search is not modelled, only when it is asked.
- MessageCrypto.FeishuReadsStandardPayload: the sender is Feishu's; the payload is built as its format says, since the repository has no encoder for it.
- MessageCrypto.WechatRoundTrip: signatures and XML around the ciphertext are not modelled.
- StreamAssembly.ReadLines: JSON text is read by a parameter, which says of each payload whether it holds a delta, is skipped, or raises (a `null` list of calls, a `null` function); responses that are not streams are not modelled.
- ToolLoop.ExecuteToolLoop: completions and tool outcomes, call by call, JSON parsing and the extraction of inline images are parameters; the texts of error messages are not modelled.
- UserSettings.UsersTable.PatchUserSettingsById: one call is one atomic step, as the row lock makes it; SQLite ignores that lock. Writers that bypass this method are not modelled.
- ChatTable.Table.InsertChat: reading the latest stamp and committing are one step; two processes writing for one user at once may draw equal stamps.
- ChatTable.Table.UpdateChatById: payload normalisation and titles are one opaque body.
- ChatTable.Table.ReplaceChats: the message and tag rows that go with the chats are not modelled.
- CollectionQuery.QueryCollection: an embedding function that raises ends the query in the code; only the searches may fail here.
- TaskRegistry.Registry.StopTask: the event loop is reduced to the order of steps; a task object is its id, and the coroutine it runs is not modelled.
- RateLimiter.Limiter.Admit: old buckets are kept for ever, as in the code; the bound on memory is not studied, and several server processes have a limiter each.
- GatewayTranslation.ToMessage: fields of the wrong type, system prompts, tool lists and user messages are not modelled; a `null` name or id is the missing one.
- GatewayTranslation.RoundTrip: JSON numbers are integers and finite binary floats; NaN, infinities and the sign of zero are not modelled, nor are streaming responses and the audit log.
- MigrationProtocol.AllOrNothing: assumes transactional DDL, a lock that dies with its process, and a database that nobody else writes; the claims are for the three source families. For fresh, migrated and unknown databases only the single run is described (`MigrationRun.Connection.EnsureRuntimeMigrated`).
- MigrationRun.Connection.EnsureRuntimeMigrated: the table rewriting of each family and the two data migrations are uninterpreted, each process's own, and may raise; what they compute is not modelled, apart from the chat backfill.
- MigrationDetect.SeedMigratehistory: timestamps are left out.
- ChatBackfill.Backfill: contents, tokens, times and metadata of a message are one opaque body, and which of them cannot be converted or stored is one flag; the conversions themselves are not modelled.
- The command-line migration (`migrate_auto`) is not modelled: it repeats the protocol in another order of steps, and with a forced family it bypasses detection, so that the invariant does not apply to it.
- HTTP clients, document loaders, the vector database, Redis and SQL text: tables are sequences, sets and maps.
- SHA-1 signatures of WeChat callbacks: an equality of digests with no law of its own.
- Plain create, read, update and delete tables (notes, prompts, channels, files), usage sums, the configuration list and the frontend: easy members.
- Access-control maps and group member lists built during migration: plain grouping loops.
