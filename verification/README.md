# Verified model of the campus services

A Dafny model of the parts of the system where loops, shared state and interleavings decide whether
the answer is right, with proofs of what those parts promise. `dafny verify dfyconfig.toml` checks it.

| file | what it models |
|---|---|
| `Wrappers`, `Sequences` | an optional value, and facts about sequences and subsequences that several files use |
| `PyStrings`, `GoStrings`, `Decimal` | the string operations and number printing the services are written with |
| `Normalize`, `TextBlocks`, `SplitBlock`, `Chunker` | the retrieval service's path from a document's text to its chunks |
| `RankFusion` | reciprocal rank fusion of the dense and the sparse ranking |
| `Bm25Cache` | the BM25 index cache shared by request threads |
| `BatchProcessor` | the batcher that collects events from request goroutines and a timer |
| `TaskServer` | the background task loop, its exclusive workers and its shutdown |
| `FileIndex` | the file tables sharded by id and by hash, and the transaction that writes both |
| `FileDedup`, `FileRuns`, `FileDuplicates`, `FileSpelling` | the upload requests, what every run of them keeps, their deduplication by hash, and hashes in other letter cases |
| `PosterWrap` | poster text wrapping with an ellipsis |
| `MarkedText`, `PostFeedCache` | texts of three codes with marks between them, the versioned cache keys of post lists, and what the cache serves |
| `LabelEscape` | the Prometheus label escaping of the health exporter |

A loop of the services is a method with that loop, and an object whose fields the services update is a
class. Each such method is proved equal to a specification function, or to the effect of a critical
section, and the theorems are proved about that. Concurrency is a state machine whose actions are the
critical sections, the reads and the waits of the code; a theorem then ranges over every run, that is
every interleaving.

## What the proofs found

- **Greedy packing is optimal** (`Chunker.PackingIsOptimal`): no way of dealing the blocks out in order
  makes fewer chunks. An oversize block splits the problem in two (`OversizeBlockCuts`).
- **Chunking loses nothing** (`Chunker.ChunksKeepInk`): every non-space character of a text is in its
  chunks, in order, for any heading recogniser, if the overlap is not negative.
- **Windows cover the text exactly when the configured overlap is not negative**
  (`SplitBlock.WindowsCoverIff`). The overlap is read from the environment without a check.
- **Consensus wins exactly for lists of at most 61 entries** (`RankFusion.ConsensusWinsIff`). The service
  cuts its lists to at most 20, so a chunk found by both rankings always comes before one found by only
  one (`QueryRanksConsensusFirst`).
- **A BM25 invalidation can be lost** (`Bm25Cache.InvalidationCanBeLost`): the version stored with an
  index is the one read when it is published, not when the store was scrolled. What is served was
  nevertheless scrolled no earlier than the request's own clock reading minus the TTL
  (`BoundedStaleness`). It misses a completed local write if and only if that write came after the scroll,
  and its invalidation before the publish, of the build that made the index (`ServedFreshIff`). The
  version comparison never fails by itself, because invalidating also clears the index
  (`VersionAlwaysCurrent`).
- **The post list cache does not lose invalidations** (`PostFeedCache.ServedListIsFresh`): there the
  version is read before the database, so a completed bump always counts.
- **A post list key is shared by different queries exactly when a code could be cut at a mark**
  (`PostFeedCache.CollidesIff`): `|post_type=` inside the category or the post type, or `|sort=` inside
  the post type or the sort, with no space next to it inside the code (example `MarksCollide`). A `|` by
  itself does no harm. Otherwise a key tells queries apart up to spaces around the codes (`KeyFaithful`),
  while the database query uses the codes as given.
- **A restart makes `done` close twice, and nothing else does** (`TaskServer.PanicsIffRestarted`): a second
  close has happened or can still happen if and only if some Start found `cancel` unset although a loop
  had been made before, whether or not that loop has exited. `StartIsSafeIff` gives this as a guard for
  the next Start, and after any Stop there can be such a Start (`StopAllowsRestart`). Without one shutdown
  is quiescent, even with several callers of Stop, and the caller that took the cancel function can always
  be brought to its return (`StopCanReturn`).
- **Every event reaches the processor once** (`BatchProcessor.ExactlyOnce`, `EverythingIsProcessed`), in
  batches of exactly `size` items unless the timer, a flush or a stop comes first (`AddHandsOutIff`).
- **An update keeps the two file indexes in agreement exactly when the stored hash is in the same hash
  shard as the given one, or nothing is stored** (`FileIndex.UpdateKeepsAgreementIff`, broken in
  `UpdateAcrossShards`). Everything the upload requests do satisfies this
  (`FileRuns.RequestKeepsAgreement`). With a shard count that is not positive no file can be added at all
  (`AddSucceedsIff`).
- **Two domains can share their tables**: the key of `a` and `b_c` is that of `a_b` and `c`
  (`FileIndex.KeysMeet`). It takes an underscore in a domain (`KeysApart`).
- **Deduplication finds every spelling of an uploaded hash exactly when the hash begins with no letter or
  the shard count divides 32** (`FileSpelling.EverySpellingFoundIff`, `EverySpellingAnsweredIff`), the
  database comparing hashes without regard to case: the shard is chosen by the first byte as it is
  written. With five shards, as in app/base/service/configs/config.yaml:28-34, a hash in another case is
  stored a second time (`OtherSpellingMissed`).
- **A removed file still takes part in deduplication** (`FileDuplicates.RemovedStillDeduplicates`): no read
  looks at the deletion mark.
- **A poster can drop the last character without an ellipsis**, exactly when the text is one character
  too long for its box (`PosterWrap.SilentLossIff`, example `LastCharacterLost`).

## Model

| member | source | states |
|---|---|---|
| `Normalize.NormalizeReachesNormalForm` | campus-rag/main.py:120-124 | any input ends up without carriage returns, tabs, double spaces, triple newlines or space at the ends |
| `Normalize.NormalFormIffFixed` | campus-rag/main.py:120-124 | the strings normalisation leaves alone are exactly those in that form |
| `Normalize.NormalizeIdempotent` | campus-rag/main.py:120-124 | normalising twice is normalising once, for every string |
| `Normalize.NormalizeKeepsSkeleton` | campus-rag/main.py:120-124 | no word is lost, and no line break between words is made or removed |
| `Normalize.LineBreaksExact` | campus-rag/main.py:121 | each `\r\n`, and each `\r` by itself, becomes one newline, wherever it stands |
| `Normalize.BlankRunExact` | campus-rag/main.py:122 | each maximal run of spaces and tabs becomes one space, wherever it stands |
| `Normalize.NewlineRunExact` | campus-rag/main.py:123 | each maximal run of k newlines becomes min(k, 2) newlines, wherever it stands |
| `Normalize.NormalizeKeepsInk` | campus-rag/main.py:120-124 | every character that is not a space is kept, in order |
| `TextBlocks.BuildTextBlocks` | campus-rag/main.py:190-218 | the line-by-line loop produces the blocks read off group by group, with `strip` removing nothing |
| `TextBlocks.FlushCurrent` | campus-rag/main.py:196-203 | closing a group of trimmed lines adds exactly those lines joined, and nothing for an empty group |
| `TextBlocks.LinesCutAtNewlines` | campus-rag/main.py:191 | lines joined by newlines are the text, and no line holds a newline |
| `TextBlocks.BlankLineSeparates` | campus-rag/main.py:205-208 | a blank line always ends a block: the blocks are those of the lines before it and then those of the lines after it |
| `TextBlocks.PlainLineJoins` | campus-rag/main.py:205-217 | nothing else but a heading does: any other line after one that is not blank is added to the same block |
| `TextBlocks.ReadLinesGivesSections` | campus-rag/main.py:205-217 | one line at a time and one group at a time give the same blocks, from any loop state |
| `TextBlocks.SectionsKeepLines` | campus-rag/main.py:190-218 | dropping the injected headings gives back the non-empty lines, in order |
| `TextBlocks.BlocksAreHeaded` | campus-rag/main.py:205-217 | a heading occurs only as first line of a block; every block from the first heading on opens with the latest heading; headings are injected nowhere else |
| `TextBlocks.BlocksSolid` | campus-rag/main.py:199-201 | every block is non-empty and has no space at either end |
| `TextBlocks.BlocksKeepInk` | campus-rag/main.py:190-218 | every non-space character of the text is in the blocks, in order |
| `SplitBlock.SlideWindows` | campus-rag/main.py:164-175 | the loop terminates for every limit and overlap, with the stripped non-empty texts of exactly the specified windows |
| `SplitBlock.WindowPositions` | campus-rag/main.py:166-174 | window k starts at k times the step; there are 1 + ceil((n - limit) / step) of them |
| `SplitBlock.WindowsExact` | campus-rag/main.py:166-174 | windows are at most `limit` long, run from the first character to the last, and neighbours share exactly min(overlap, limit - 1) characters |
| `SplitBlock.WindowsCoverIff` | campus-rag/main.py:166-174 | every character is in some window if and only if the overlap is not negative |
| `SplitBlock.PiecesConcat` | campus-rag/main.py:163 | the sentence cuts lose no character |
| `SplitBlock.PiecesCutAtTerminators` | campus-rag/main.py:163 | each piece but the last ends in a terminator, and no terminator is inside a piece |
| `SplitBlock.SentencesKeepInk` | campus-rag/main.py:163 | the stripped sentences hold every non-space character of the text, in order |
| `SplitBlock.SplitBlockLoop` | campus-rag/main.py:159-187 | all three ways of splitting, with their edge cases, against the specification |
| `SplitBlock.PackSentencesLoop` | campus-rag/main.py:176-187 | the loop over sentences against the specification |
| `SplitBlock.SplitExact` | campus-rag/main.py:159-187 | which way a block is split, and into what: a block within the limit is its own chunk; one with two pieces or more that are not blank is cut by sentence, none of them cut in two; any other is cut by sliding window |
| `SplitBlock.SentenceChunksExact` | campus-rag/main.py:176-187 | sentences are dealt to chunks in order and whole; each chunk is the end of the chunk before it and then its own sentences, at least one; it is closed only when the next sentence would not fit |
| `SplitBlock.CarryIsEnd` | campus-rag/main.py:181-182 | what is carried over is the end of the chunk before it, at most `overlap` characters, less the spaces it begins with |
| `SplitBlock.SentenceChunksBounded` | campus-rag/main.py:176-187 | no chunk exceeds max(limit, overlap + 1 + longest sentence) |
| `SplitBlock.SplitBounded` | campus-rag/main.py:159-187 | the same bound for whichever way the block is split, for any overlap |
| `SplitBlock.SplitKeepsInk` | campus-rag/main.py:159-187 | for an overlap that is not negative, every non-space character of the block is in its chunks, in order |
| `Chunker.PackBlockLoop` | campus-rag/main.py:228-246 | the loop over blocks, given blocks without space at their ends, against the specification; its `strip` calls change nothing |
| `Chunker.ChunkTextLoop` | campus-rag/main.py:221-246 | the whole of `chunk_text`, empty texts included |
| `Chunker.PackingIsOptimal` | campus-rag/main.py:228-246 | when every block fits: chunks are within the limit, joined they are the blocks joined, and no order-preserving grouping within the limit is smaller |
| `Chunker.GreedyMinimal` | campus-rag/main.py:238-243 | any valid grouping has at least as many groups as the greedy one |
| `Chunker.GreedyStaysAhead` | campus-rag/main.py:238-243 | starting with a fuller open chunk never saves a chunk and costs at most one |
| `Chunker.OversizeBlockCuts` | campus-rag/main.py:231-236 | blocks before and after an oversize block are chunked as if they were documents of their own |
| `Chunker.ChunkTextBounded` | campus-rag/main.py:221-246 | every chunk of any text is within max(size, max(overlap, 0) + 1 + longest sentence) |
| `Chunker.ChunksKeepInk` | campus-rag/main.py:120-246 | from a text to its chunks no non-space character is lost or put out of order |
| `Chunker.IndexPathNormalizesOnce` | campus-rag/main.py:543-545 | the three normalisations on the way to the index equal one |
| `RankFusion.RrfFuse` | campus-rag/main.py:482-509 | both rankings, the cut and the filter, against the specification |
| `RankFusion.CountVotes` | campus-rag/main.py:485-492 | the loop over a ranking, which updates scores and payloads key by key |
| `RankFusion.EmitLoop` | campus-rag/main.py:496-508 | the filter keeps exactly the confident keys, and each kept item is scored, explained and cleared of the working fields |
| `RankFusion.WeightExact` | campus-rag/main.py:487 | rank r of a list earns one part in 60 + r + 1 |
| `RankFusion.TallyScores` | campus-rag/main.py:485-492 | a key's score is the sum of what it earns in each list; the keys are those of the two lists, each once |
| `RankFusion.PayloadsMerge` | campus-rag/main.py:488-492 | a key's payload holds the fields of both rankings' items, the sparse one's value where both have a field |
| `RankFusion.HitShowsPayload` | campus-rag/main.py:498-508 | a hit passes the confidence filter and shows that payload with the rounded confidence as its score and its explanation, without the working fields |
| `RankFusion.RankedOrder` | campus-rag/main.py:493 | ranking is by the sum of what an id earns in the two lists, ties in order of first appearance, dense list first; nothing lost or repeated |
| `RankFusion.FuseIsSound` | campus-rag/main.py:482-509 | at most `top_k` hits, distinct ids, by score and then by first appearance, all of at least the least confidence; an id is missing only if it fails the filter or `top_k` ids score at least as much |
| `RankFusion.ConsensusDominates` | campus-rag/main.py:485-492 | with duplicate-free lists of at most 61, an id in both scores strictly above an id in one |
| `RankFusion.ConsensusTies` | campus-rag/main.py:485-492 | two lists of 62 where an id in both only ties with an id in one |
| `RankFusion.ConsensusWinsIff` | campus-rag/main.py:485-492 | 61 is exactly the longest length for which consensus always wins |
| `RankFusion.QueryRanksConsensusFirst` | campus-rag/main.py:637-679 | with the caps `query` applies, every id in both lists is ranked before every id in one |
| `Bm25Cache.Cache.constructor` | campus-rag/main.py:64-72 | the cache starts empty at version 0 |
| `Bm25Cache.Cache.Invalidate` | campus-rag/main.py:346-350 | the version grows and the entry is cleared |
| `Bm25Cache.Cache.TryServe` | campus-rag/main.py:401-407 | an index is served exactly when it is there, of the current version and not past its TTL |
| `Bm25Cache.Cache.Publish` | campus-rag/main.py:411-418 | the entry takes the version of this moment, and the clock reading of the request |
| `Bm25Cache.Cache.Get` | campus-rag/main.py:397-419 | alone, a hit changes nothing and a miss returns and caches the scrolled store |
| `Bm25Cache.BoundedStaleness` | campus-rag/main.py:397-419 | for any number of threads, a served index was scrolled no earlier than the request's clock reading minus the TTL and no later than the hit |
| `Bm25Cache.ServedIff` | campus-rag/main.py:401-418 | in any run a request is served from the cache if and only if a build of indexable points, begun within its TTL, was published and nothing was published or invalidated since; it is served the points of that build |
| `Bm25Cache.ServedFreshIff` | campus-rag/main.py:397-419 | a served index misses a local write completed before the hit if and only if the write came after the scroll and its invalidation before the publish of the build that made the index |
| `Bm25Cache.VersionAlwaysCurrent` | campus-rag/main.py:403-404 | whenever an index is cached, its version is the current one |
| `Bm25Cache.InvalidationCanBeLost` | campus-rag/main.py:408-413 | a run in which a request that starts after a completed write and its invalidation is served the old document |
| `BatchProcessor.CampusBatchProcessor.constructor` | app/campusApi/service/internal/biz/campus_batch_processor.go:25-44 | an empty batcher; sizes that are not positive become 100 |
| `BatchProcessor.CampusBatchProcessor.AddLocked` | app/campusApi/service/internal/biz/campus_batch_processor.go:50-65 | the critical section: the new state and the batch handed out, in every branch; no batch handed out earlier is altered |
| `BatchProcessor.CampusBatchProcessor.Add` | app/campusApi/service/internal/biz/campus_batch_processor.go:46-67 | run alone: the new state, the call of the processor with the batch handed out, if any, and its error passed on |
| `BatchProcessor.CampusBatchProcessor.FlushLocked` | app/campusApi/service/internal/biz/campus_batch_processor.go:73-75 | the buffer is handed out and replaced; nothing is handed out when it is empty |
| `BatchProcessor.CampusBatchProcessor.Flush` | app/campusApi/service/internal/biz/campus_batch_processor.go:69-77 | the processor is called with the buffer's items, once, unless there are none |
| `BatchProcessor.CampusBatchProcessor.StopLocked` | app/campusApi/service/internal/biz/campus_batch_processor.go:83-89 | the same, and later items bypass the buffer |
| `BatchProcessor.CampusBatchProcessor.Stop` | app/campusApi/service/internal/biz/campus_batch_processor.go:79-91 | what is left in the buffer goes to the processor |
| `BatchProcessor.CampusBatchProcessor.Process` | app/campusApi/service/internal/biz/campus_batch_processor.go:117-126 | an empty batch makes no call and no error; another makes one call, whose error is returned |
| `BatchProcessor.CampusBatchProcessor.TakeLocked` | app/campusApi/service/internal/biz/campus_batch_processor.go:105-115 | the array itself is given away and a fresh one takes its place |
| `BatchProcessor.RunKeepsInv` | app/campusApi/service/internal/biz/campus_batch_processor.go:46-126 | every run of callers and timer keeps the invariant; batches handed out and calls made are never changed, and `stopped` is never undone |
| `BatchProcessor.ExactlyOnce` | app/campusApi/service/internal/biz/campus_batch_processor.go:46-126 | over every interleaving, the batches in lock order and then the buffer are the items added in lock order; batches hold 1 to `size` items; each is waiting for its one call or has had it |
| `BatchProcessor.BatchIsStretch` | app/campusApi/service/internal/biz/campus_batch_processor.go:105-115 | batch k is the stretch of added items that begins where batch k - 1 ends |
| `BatchProcessor.AddHandsOutIff` | app/campusApi/service/internal/biz/campus_batch_processor.go:46-67 | in every reachable state: while not stopped, an Add hands out a batch if and only if `size - 1` items are buffered, and the batch has `size` items; otherwise its item is last in the buffer; once stopped, each item is a batch of its own |
| `BatchProcessor.NoneStranded` | app/campusApi/service/internal/biz/campus_batch_processor.go:55-65 | fewer than `size` items are ever buffered, and if any are, the timer's own steps suffice to hand them out |
| `BatchProcessor.EverythingIsProcessed` | app/campusApi/service/internal/biz/campus_batch_processor.go:46-126 | from every reachable state the timer and the callers under way can finish, and then every item added is in exactly one batch and every batch has had exactly one call |
| `BatchProcessor.StoppedForGood` | app/campusApi/service/internal/biz/campus_batch_processor.go:79-91 | after Stop, whatever follows, the buffer stays empty and the timer unarmed |
| `TaskServer.CampusTaskServer.Start` | app/campusApi/service/internal/server/campus_task_server.go:34-45 | a loop is started exactly when none holds `cancel` |
| `TaskServer.CampusTaskServer.TakeCancel` | app/campusApi/service/internal/server/campus_task_server.go:48-51 | Stop takes the cancel function and leaves none |
| `TaskServer.CampusTaskServer.RunExclusive` | app/campusApi/service/internal/server/campus_task_server.go:141-149 | a worker is started, and counted, exactly when its name is free |
| `TaskServer.CampusTaskServer.Delete` | app/campusApi/service/internal/server/campus_task_server.go:153-157 | a finished worker frees its name and nothing else |
| `TaskServer.CampusTaskServer.Done` | app/campusApi/service/internal/server/campus_task_server.go:152 | the wait group counts one worker down |
| `TaskServer.PerNameExclusion` | app/campusApi/service/internal/server/campus_task_server.go:141-160 | in every reachable state at most one worker per name executes, `running` is exactly their names, and the wait group counts the workers not yet past Done |
| `TaskServer.QuiescentShutdown` | app/campusApi/service/internal/server/campus_task_server.go:47-75 | without a restart: when StopCampusBatches has been called, and so when Stop has returned nil, the loop is gone and every worker finished, and nothing starts or flushes afterwards |
| `TaskServer.StopCanReturn` | app/campusApi/service/internal/server/campus_task_server.go:47-75 | a caller of Stop past its cancelling has cancelled the loop it took; without a restart, a caller that took the cancel function and has not timed out can be brought to its return by the loop, the workers and the callers alone |
| `TaskServer.LoopsEndWhenTold` | app/campusApi/service/internal/server/campus_task_server.go:108-111 | after any run, restarts included, a loop can leave its select if and only if its context ended or a caller of Stop that took its cancel function has called it |
| `TaskServer.StopAllowsRestart` | app/campusApi/service/internal/server/campus_task_server.go:47-54 | after a Stop, whatever becomes of its loop, a Start makes a second loop, and `done` can be closed twice |
| `TaskServer.TasksAreStarted` | app/campusApi/service/internal/server/campus_task_server.go:77-139 | a tick leads to each of its tasks running, and a Start that makes a loop to the initial tasks |
| `TaskServer.OneLifecycleNeverPanics` | app/campusApi/service/internal/server/campus_task_server.go:77-78 | without a restart there is at most one loop and `done` is closed at most once |
| `TaskServer.CanPanicIff` | app/campusApi/service/internal/server/campus_task_server.go:77-78 | in every reachable state, some continuation without Start closes `done` a second time if and only if two loops have been made |
| `TaskServer.PanicsIffRestarted` | app/campusApi/service/internal/server/campus_task_server.go:34-45 | after any run, a second close has happened or can happen if and only if some Start found `cancel` unset although a loop had been made |
| `TaskServer.StartIsSafeIff` | app/campusApi/service/internal/server/campus_task_server.go:37-42 | the next Start leads to a second close if and only if `cancel` is unset and a loop has been made |
| `Decimal.OfIntInjective` | app/base/service/internal/data/filehelper.go:49 | `%d` prints different numbers differently, with digits and a minus sign only |
| `FileIndex.NamesApart` | app/base/service/internal/data/filehelper.go:36-63 | no id table is a hash table; a table name gives back its key, and for hash tables its shard |
| `FileIndex.IdTablesIff` | app/base/service/internal/data/filehelper.go:36-53 | two ids share a table if and only if their keys and their remainders are equal |
| `FileIndex.HashTablesIff` | app/base/service/internal/data/filehelper.go:55-60 | and two hashes if and only if their keys and the remainders of their first bytes are |
| `FileIndex.UnconfiguredIsWhole` | app/base/service/internal/data/filehelper.go:36-43 | a key without a configured count has one table of each kind |
| `FileIndex.GoRemExact` | app/base/service/internal/data/filehelper.go:49 | the remainder is smaller than the shard count, has the sign of the id and differs from it by a multiple of the count |
| `FileIndex.KeysApart` | app/base/service/internal/data/filehelper.go:37 | a key tells domain and business apart when the domains hold no underscore |
| `FileIndex.KeysMeet` | app/base/service/internal/data/filehelper.go:37 | two domains and businesses with one key |
| `FileIndex.FileRepoHelper.DoWithTx` | app/base/service/internal/data/filehelper.go:65-103 | the loop over both tables commits both changes or none; a failure, wherever it happens, leaves every table as it was |
| `FileIndex.FileRepoHelper.AddFile` | app/base/service/internal/data/filehelper.go:105-110 | the transaction with the insert of a row |
| `FileIndex.FileRepoHelper.UpdateFile` | app/base/service/internal/data/filehelper.go:119-124 | the transaction with the update of the non-zero fields |
| `FileIndex.FileRepoHelper.RemoveFile` | app/base/service/internal/data/filehelper.go:112-117 | the transaction with the deletion mark |
| `FileIndex.AddSucceedsIff` | app/base/service/internal/data/filehelper.go:45-110 | exactly when an add succeeds: id and hash given, no database failure, a positive shard count, both tables there, neither holding the id |
| `FileIndex.ChangeSucceedsIff` | app/base/service/internal/data/filehelper.go:65-124 | exactly when an update or a removal succeeds; the row need not be there |
| `FileIndex.UpdateWrites` | app/base/service/internal/data/file.go:120-137 | an update writes every field that is given, and leaves the others as they were |
| `FileIndex.AddKeepsAgreement` | app/base/service/internal/data/filehelper.go:105-110 | an add, succeeding or failing, keeps the agreement of id tables and hash tables |
| `FileIndex.ChangeKeepsAgreement` | app/base/service/internal/data/filehelper.go:112-124 | so does a removal, and an update within the stored hash's shard |
| `FileIndex.UpdateKeepsAgreementIff` | app/base/service/internal/data/filehelper.go:119-124 | a successful update keeps it if and only if nothing is stored or the stored hash is in the same shard |
| `FileIndex.UpdateAcrossShards` | app/base/service/internal/data/filehelper.go:119-124 | an update, with five shards, that breaks it |
| `FileIndex.RunKeepsAgreement` | app/base/service/internal/data/filehelper.go:65-124 | so does any run of adds, removals and such updates |
| `FileIndex.RunsFromEmptyAgree` | app/base/service/internal/data/filehelper.go:65-124 | so the indexes agree after any such run that starts without files |
| `PrimaryKeys.Least` | app/base/service/internal/data/file.go:55-61 | the row `First` picks is the match with the smallest id |
| `FileDedup.FileUsecase.CheckFileExisted` | app/base/service/internal/biz/file.go:191-201 | looks in the hash's own shard for an uploaded row with that hash |
| `FileDedup.AcceptsIff` | app/base/service/internal/biz/file.go:58-65 | an object hash is accepted if and only if it holds a `-` or is the stored hash byte for byte but for the case of ASCII letters |
| `FileDedup.FileUsecase.PreSignPut` | app/base/service/internal/biz/file.go:219-241 | answers with an existing file or stores the file it is given under a new id, in every branch |
| `FileDedup.FileUsecase.ReportUploaded` | app/base/service/internal/biz/file.go:243-276 | marks the file uploaded only if the object's hash is accepted, in every branch |
| `FileRuns.RequestKeepsAgreement` | app/base/service/internal/biz/file.go:219-276 | every upload request keeps the agreement of the two indexes |
| `FileRuns.RunEvolves` | app/base/service/internal/biz/file.go:219-276 | over any run of requests the indexes agree, a row keeps its file, an uploaded row stays uploaded and a removed one removed |
| `FileRuns.ReachableInv` | app/base/service/internal/biz/file.go:219-276 | every database the requests make of an empty one satisfies the invariant the other theorems ask for |
| `FileRuns.ReportRepliesIff` | app/base/service/internal/biz/file.go:243-276 | the reply and the effect of every report: without a matching object hash it fails and changes nothing; with one it marks the row, and nothing else of it but the time, unless the database fails |
| `FileRuns.UploadedWasChecked` | app/base/service/internal/biz/file.go:258-264 | a row that became uploaded did so by a report for that file whose object hash held a `-` or was, byte for byte, the stored one but for letter case |
| `FileRuns.UploadedWasReported` | app/base/service/internal/biz/file.go:258-264 | so every uploaded row of a system that started without files was checked by such a report |
| `FileDuplicates.PutFindsDuplicateIff` | app/base/service/internal/biz/file.go:219-227 | a put answers with an existing file, changing nothing, if and only if a duplicate is stored in that shard, and then with the least of them |
| `FileDuplicates.PutCreatesIff` | app/base/service/internal/biz/file.go:219-241 | the reply and the effect of a put without a duplicate: exactly when it stores the file, under which id and with which fields, and when it answers with that id |
| `FileDuplicates.ReportedIsDeduplicated` | app/base/service/internal/biz/file.go:219-276 | once a report succeeded, whatever follows, a put for the same key and hash answers with an uploaded file of that hash and creates no row |
| `FileDuplicates.RemovedStillDeduplicates` | app/base/service/internal/data/file.go:55-76 | even if the file was removed in between: its row is marked, and still answers a put if it is the only upload |
| `FileSpelling.EverySpellingFoundIff` | app/base/service/internal/data/filehelper.go:55-60 | with a case-insensitive database, every spelling of an uploaded hash finds the upload if and only if it begins with no letter or the shard count divides 32 |
| `FileSpelling.EverySpellingAnsweredIff` | app/base/service/internal/biz/file.go:191-227 | for the only upload of a hash, that is when a put of any spelling answers with it |
| `FileSpelling.OtherSpellingMissed` | app/base/service/internal/biz/file.go:219-241 | with five shards, a put of `A` after the upload of `a` stores a second file |
| `PosterWrap.CleanKeepsWords` | app/campusApi/service/internal/biz/campus_moments.go:928-932 | cleaning keeps exactly the words, and cleaning twice is cleaning once |
| `PosterWrap.CleanIsTight` | app/campusApi/service/internal/biz/campus_moments.go:928-932 | a clean text has single spaces between its words and no other space |
| `PosterWrap.FieldsSplit` | app/campusApi/service/internal/biz/campus_moments.go:931 | a text is its words and runs of spaces around and between them |
| `PosterWrap.WrapPosterText` | app/campusApi/service/internal/biz/campus_moments.go:892-926 | the lines are what is drawn of a greedy layout of the cleaned text, each line as long as fits |
| `PosterWrap.ShortenLoop` | app/campusApi/service/internal/biz/campus_moments.go:918-922 | the longest part of the last line that fits with the dots, but at least one character |
| `PosterWrap.LayoutUnique` | app/campusApi/service/internal/biz/campus_moments.go:900-916 | text and box admit only one such layout |
| `PosterWrap.DrawnPromises` | app/campusApi/service/internal/biz/campus_moments.go:892-926 | for any measuring function: at most `maxLines` lines, each fitting or a single character; without dots they begin the text; with none drawn at most the last character is missing |
| `PosterWrap.SilentLossIff` | app/campusApi/service/internal/biz/campus_moments.go:914-924 | a character is lost without dots if and only if the text is exactly one character too long |
| `PosterWrap.LastCharacterLost` | app/campusApi/service/internal/biz/campus_moments.go:914-924 | an example where it is lost |
| `GoStrings.TrimSpaceCuts` | app/campusApi/service/internal/data/campus_cache.go:163-165 | trimming cuts a run of spaces off each end and nothing else |
| `PostFeedCache.ShouldCacheIff` | app/campusApi/service/internal/data/campus_cache.go:139-157 | exactly the queries with every unprinted field at one value and 0 <= offset < 3 * limit are cached |
| `PostFeedCache.KeyEqualIff` | app/campusApi/service/internal/data/campus_cache.go:159-171 | for any two queries, keys are equal if and only if versions, offsets, limits and the text of the three trimmed codes are |
| `PostFeedCache.KeyFaithful` | app/campusApi/service/internal/data/campus_cache.go:159-171 | a cached query none of whose codes can be cut at a mark shares its key only with queries that are the same, up to spaces around the codes |
| `MarkedText.OtherReadingSplits` | app/campusApi/service/internal/data/campus_cache.go:161-168 | a text of three codes reads as other codes only if some code can be cut at a mark |
| `MarkedText.SplitReadsOtherwise` | app/campusApi/service/internal/data/campus_cache.go:161-168 | and whenever one can, it does |
| `PostFeedCache.CollidesIff` | app/campusApi/service/internal/data/campus_cache.go:159-171 | a different cached query has the same key if and only if one of the codes can be cut at a mark |
| `PostFeedCache.MarksCollide` | app/campusApi/service/internal/data/campus_cache.go:161-168 | two different cached queries that share a key at every version |
| `PostFeedCache.FeedVersion.Bump` | app/campusApi/service/internal/data/campus_cache.go:77-84 | the counter grows by one, unless Redis is disabled or does not answer |
| `PostFeedCache.FeedVersion.Key` | app/campusApi/service/internal/data/campus_cache.go:95-107 | the key uses the counter, or 0 when it cannot be read |
| `PostFeedCache.BumpRetiresKeys` | app/campusApi/service/internal/data/campus_cache.go:77-107 | a key computed before a bump never equals one computed after it, whatever the queries |
| `PostFeedCache.ServedListIsFresh` | app/campusApi/service/internal/data/campus.go:814-892 | a list served to a request was counted and read for a query with the same key after every bump completed before the request began |
| `PostFeedCache.FindsIff` | app/campusApi/service/internal/data/campus.go:819-821 | in any run a request can find a list if and only if one was stored under its key and has not expired, and then the one stored last |
| `PostFeedCache.ReloadedAreShown` | app/campusApi/service/internal/data/campus.go:964-994 | the posts served are exactly those of the list that are visible and not deleted when served |
| `PostFeedCache.ReloadInOrder` | app/campusApi/service/internal/data/campus.go:987-992 | in the order of the list, each where its id stands |
| `LabelEscape.EscapesCharByChar` | deploy/observability/health-exporter/health_exporter.py:13-14 | the three whole-string replacements equal one escape of each character |
| `LabelEscape.ValueRoundTrip` | deploy/observability/health-exporter/health_exporter.py:13-14 | a reader of the text exposition format 0.0.4 gets the value back and stops at the closing quote |
| `LabelEscape.NoRawNewline` | deploy/observability/health-exporter/health_exporter.py:13-14 | no newline is left in what is written |
| `LabelEscape.EscapeInjective` | deploy/observability/health-exporter/health_exporter.py:13-14 | different values are written differently |
| `LabelEscape.LabelsRoundTrip` | deploy/observability/health-exporter/health_exporter.py:17-19 | a reader gets back exactly the labels written, and stops at the closing brace |
| `LabelEscape.MetricReads` | deploy/observability/health-exporter/health_exporter.py:17-19 | a line is the name, a brace, labels a reader gets back up to the closing brace, a space and the value |
| `LabelEscape.MetricInjective` | deploy/observability/health-exporter/health_exporter.py:17-19 | a line determines the metric name, the labels and the value |

## Left out

- The generated RPC code, wiring and user interface, account and moderation logic, and the rules that are
  short case analyses: they would only add easy members.
- Embeddings, Qdrant, jieba, BM25 scores, MySQL, Redis, MinIO and fonts: they appear as maps, as arbitrary
  functions or as outcomes chosen by the environment.
- Heading recognition: an arbitrary predicate on lines, so the theorems hold for any recogniser.
- `Chunker.ChunkTextBounded`: CHUNK_SIZE is not negative; with a negative one the windows would count from
  the end of the text.
- `Chunker.ChunksKeepInk`: CHUNK_SIZE is at least one and CHUNK_OVERLAP not negative, as the windows need.
- `RankFusion.RrfFuse`: scores are real numbers, without floating-point rounding. Confidence, rounding and
  explanation are arbitrary functions, and each hit keeps its reciprocal rank score so that the order can
  be stated.
- `Bm25Cache.BoundedStaleness`: the clock is taken to be monotone, a scroll reads the store at one instant,
  and the early return when the collection does not exist is not modelled.
- `BatchProcessor.ExactlyOnce`: the state machine has a processor; without one `Add` does nothing, which
  the class models. Intervals, time limits and logging are not modelled, and a batch whose call fails is
  not retried, as in the code.
- `TaskServer.QuiescentShutdown`: the goroutine waiting for the wait group is one step of its caller, the
  tasks themselves are opaque, and ticker periods are not modelled. It is about runs without a restart;
  `TaskServer.PanicsIffRestarted` says what a restart leads to.
- `FileIndex.FileRepoHelper.DoWithTx`: a commit that reports an error is taken not to have been applied,
  transactions are isolated from each other, and all tables it names may or may not exist.
- `FileIndex.RunKeepsAgreement`: updates to a hash of another shard are excluded, because they break the
  agreement; the upload requests never make one. Timestamps and the deletion mark are not part of the
  agreement. Every configured shard count is positive.
- `FileDedup.FileUsecase.ReportUploaded`: letter case is folded for ASCII letters only. How the database
  compares hashes is a parameter. Object names and URLs are outcomes only.
- `FileDedup.FileUsecase.PreSignPut`: an empty hash, at which the Go code panics, is a failure without
  effect. The URLs, progress and merging of multipart uploads are not modelled.
- `FileDedup.FileUsecase.CheckFileExisted`: requires a hash, since Go panics without one before any read.
- `FileRuns.RunEvolves`: the files of put requests are not marked uploaded, as the service builds them
  (app/base/service/internal/service/fileservice.go:21-32).
- `PosterWrap.WrapPosterText`: takes the text as the characters Go's decoder yields, which are U+FFFD for
  the bytes of invalid UTF-8.
- `PostFeedCache.KeyFaithful`: compares what is digested, taking SHA-1 as injective.
- `PostFeedCache.ServedListIsFresh`: Redis answers when versions are read and bumped.
- `LabelEscape.MetricInjective`: names are taken to be legal label names, without the colon the format
  also allows in metric names; the exporter writes none.
- The versioned cache of campus moments, which works like that of the post lists.
