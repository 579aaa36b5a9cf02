# Verified model of the v3 workspace index engine

A Dafny 4.11 model of the v3 engine: the indexer that turns a directory into a searchable
SQLite index, and the pieces of the query side with arithmetic or ordering in them. Every
property below is proved for all inputs, all runs or all reachable states.

`dafny verify dfyconfig.toml` checks the whole project.

| files | what they model |
|---|---|
| `Bytes`, `Utf8` | byte strings, leftmost search, well-formed UTF-8 (section 4 of RFC 3629) |
| `Prose`, `ProseLayout`, `ProseTheorems`, `ProseDrift`, `ProseTight`, `ProseBudget`, `ProseLimits`, `ProseShape`, `CodeChunks` | the recursive prose chunker and the code chunker |
| `Store`, `Indexing`, `Coverage`, `History`, `Safety`, `Keeping`, `Fingerprints`, `Gate` | the database, what a from-scratch pass makes of a file and what a reader may expect of it, the commits an indexer can make, what every run of commits keeps, and the server's read-side gate |
| `Staging`, `Walking`, `RunnerSteps`, `Runner` (module `Pipeline`), `Lives` | the runner and the walker as code that changes the database step by step, proved to make only those commits, and several lives of the runner on one database |
| `Quantize`, `Fusion`, `Ndcg` | int8 quantization, reciprocal rank fusion, recall and NDCG, over exact reals |
| `BertTok` | the WordPiece tokenizer |
| `Browse` | the folder listing and its pages |
| `Migrate` | the schema migration runner |

How the pieces fit:

- **The pipeline.** A `DB` value is one committed state; a transaction is a copy that is committed or thrown
  away. `Pipeline.Runner` has the fields of the Go `Runner` and its methods, and every fallible call can fail,
  panic or be cancelled (`Pipeline.Try`). The runner's ghost fields record each state it commits; its invariant
  says that this record is a chain of `History.Next` steps. `Safety` then reasons about any chain of such steps,
  so its theorems cover every mix of failures, panics, cancellations and kills over any number of runs with any
  disk edits between them.
- **The outside world.** A runner with `calm` set meets no failing call and no cancellation; all other contracts hold for
  any runner, and those under `calm` say that the run then succeeds and which files fail for a reason in their content.
  The disk a run finds is a map from paths to contents, with the set of paths that cannot be read.
- **Two descriptions.** What the passes make is computed by `Indexing.Build`; `Coverage` says what an index must hold
  without the passes, and every indexed file is proved to hold it.
- **The chunker.** The methods of `Prose` build the chunks in loops, as the Go code does, and are proved to give
  the chunks of `ProseTrace`, which also records where each text really stands. All theorems are about `ProseTrace`.
- **Assumptions.** Hashing is injective, the file system does not change during one run, there is one writer, and
  every `last_seen` written before a run is below its start time. The token counter, the embedding model, the
  grammars, the MIME classifier, the character classes and the normalizer are arbitrary functions.

Where the code and its comments part, the model follows the code:

- `ChunkProse` says it splits until each piece fits within MaxTokens; the hard cut does not look at what it cuts off.
  One two-byte rune over a budget of one byte is an input (`ProseLimits.RuneExceedsBudget`), and `ProseLimits.FitsIff`
  is the exact condition on the configuration and the counter. `ProseLimits.BytesFit` meets it for a counter of bytes.
- `ProseChunk` speaks of offsets into the original input; a buffer that begins with an empty part is reported too
  early. `ProseDrift.OffsetsExactIff` says when offsets are exact, `ProseDrift.LeadingSpaceDrifts` is an input where
  they are not, and `ProseTight.TightOffsetsAreExact` is a condition one can read off the text.
- The read-side gate calls a missing fingerprint row compatible by construction; that holds only until some
  indexer of another mode writes the row and stores its vectors. `Gate.GateSoundIff` is the exact condition.
- NDCG is documented as a normalized score; a path returned twice can push it over 1
  (`Ndcg.RepeatedHitsExceedOne`). `Ndcg.NdcgAtMostOne` and `Ndcg.BoundedIffAhead` say when it is bounded, and
  `Ndcg.NdcgIsOneIff` when it is 1.
- The runner reads that `schema_version` is updated with each script; the UPDATE reaches only a row that exists.
  `Migrate.ResumesIff` says what that needs of the scripts, `Migrate.RowlessScriptRunsTwice` is a script without it.

## Model

| member | source | states |
|---|---|---|
| Prose.ChunkProse | internal/v3/chunker/prose.go:52-55 | gives the chunks of `ProseTrace` for any input and counter, and terminates |
| Prose.RecursiveSplit | internal/v3/chunker/prose.go:57-118 | the recursion gives the chunks of the traced split at every level |
| Prose.SplitAtSeparator | internal/v3/chunker/prose.go:88-117 | the buffer loop with its nested recursion gives the same chunks as grouping the parts first and splitting each group |
| Prose.HardSplit | internal/v3/chunker/prose.go:70-87 | the hard cut and the recursion on what is left |
| Prose.HardCut | internal/v3/chunker/prose.go:73-79 | the cut is the first rune start, past the first byte, at or behind the proportional length rounded down, or else the end of the text (`Prose.IsCut`) |
| Prose.CutInside | internal/v3/chunker/prose.go:73 | the proportional cut never falls outside the text when TargetTokens is at most the count |
| ProseLimits.CutInsideIff | internal/v3/chunker/prose.go:73 | it falls inside every text over MaxTokens if and only if TargetTokens is at most MaxTokens + 1 |
| Prose.PartPosition | internal/v3/chunker/prose.go:120-126 | the sum over the parts before `i`, which `ProseLayout.JoinAt` shows to be where part `i` stands |
| ProseLayout.JoinAt | internal/v3/chunker/prose.go:120-126 | part `i` of a split text stands at `positionOf(i)` in it, followed by the separator unless it is the last |
| ProseLayout.GroupLayout | internal/v3/chunker/prose.go:91-117 | the buffers a separator level flushes lie in order in the text, with only droppable text between, and never start after their reported start minus the lag |
| ProseLayout.SplitLayout | internal/v3/chunker/prose.go:57-118 | the same for the pieces of the whole recursion, at every depth |
| ProseTheorems.ChunkingLosesOnlySeparators | internal/v3/chunker/prose.go:57-118 | the input is g0+t1+g1+...+tn+gn for the chunk texts t, where every gap is made of whitespace and whole separators |
| ProseLayout.OnlyStopsAreDropped | internal/v3/chunker/prose.go:53 | the only visible ASCII byte a gap can hold is a '.', with a blank behind it |
| ProseTheorems.ChunkOffset | internal/v3/chunker/prose.go:63-68 | every reported range is inside the input and as long as its text, and the text stands at the reported start plus a drift that is never negative |
| ProseTheorems.ChunksInOrder | internal/v3/chunker/prose.go:88-126 | reported ranges, like the true ones, are in order and disjoint |
| ProseDrift.DriftIff | internal/v3/chunker/prose.go:105-112 | all pieces lag by the same amount if and only if no buffer that yields a chunk was opened by an empty part |
| ProseDrift.OffsetsExactIff | internal/v3/chunker/prose.go:105-112 | every offset of a chunked text is exact if and only if no such buffer exists |
| ProseDrift.LeadingSpaceDrifts | internal/v3/chunker/prose.go:88-117 | a two-byte input whose one chunk is reported one byte early |
| ProseTight.TightOffsetsAreExact | internal/v3/chunker/prose.go:88-112 | when no separator begins where the text does or right behind another one, an empty line counting as one, every offset is exact for every configuration and counter |
| ProseBudget.ChunksAreSound | internal/v3/chunker/prose.go:57-118 | every TokenCount is the count of the text; chunks outside the hard cut are at most MaxTokens and not blank; a hard-cut piece is the front up to the cut of some text over MaxTokens that holds no separator; well-formed input gives well-formed chunks; with a byte counter a hard-cut piece reaches its target and exceeds it by at most 3 |
| ProseLimits.FitsIff | internal/v3/chunker/prose.go:48-87 | every chunk of every text is within MaxTokens if and only if, of every text over MaxTokens that is not blank and holds no separator, the front up to the cut is within it |
| ProseLimits.BytesFit | internal/v3/chunker/prose.go:48-87 | with a byte counter every chunk of well-formed text is within MaxTokens when that is at least TargetTokens + 3 |
| ProseLimits.RuneExceedsBudget | internal/v3/chunker/prose.go:70-87 | the promise fails for one two-byte rune over a budget of one byte |
| ProseLimits.PieceCount | internal/v3/chunker/prose.go:70-87 | with a byte counter a text of n bytes without separators comes in at most ceiling(n / max(TargetTokens, 1)) chunks |
| ProseShape.ChunksAreShaped | internal/v3/chunker/prose.go:57-118 | the chunk texts are those of a declarative reading: none of a blank text, a text within MaxTokens itself, else those of its greedy runs at the first separator that is left, and with none left a front up to the cut and those of the rest |
| ProseShape.SpaceIff | internal/v3/chunker/prose.go:58 | what counts as white space is exactly the Unicode White_Space property, byte by byte of UTF-8 |
| ProseShape.BuffersAreGreedy | internal/v3/chunker/prose.go:94-116 | the buffers are runs of whole parts joined up again, in order, with only empty parts left out; no run could have taken the part that follows it, and only a single part goes over TargetTokens |
| ProseBudget.ByteCut | internal/v3/chunker/prose.go:73-79 | with a byte counter on well-formed text the cut is at most TargetTokens + 3 |
| CodeChunks.ChunkCode | internal/v3/chunker/ast.go:22-47 | symbol by symbol and in order, the chunks cover the symbol's whole slice but for white space and separators: one exact slice if it is in budget, else its shifted prose chunks, in order and without overlap (`CodeChunks.SymbolsCovered`) |
| CodeChunks.CodeChunksInside | internal/v3/chunker/ast.go:25-44 | every chunk's range is inside its own symbol's, its text stands inside the symbol at or after the reported start, and an in-budget symbol is one exact slice |
| History.ClearTables | internal/v3/pipeline/runner.go:238-248 | the three deletes, in the order of the cleanup and of the trigger, take away exactly the file's rows and leave every other row as it was |
| Walking.UpsertEffect | internal/v3/walker/walker.go:44-50 | the upsert, with the trigger that clears a file's rows when its sha256 changes, makes one more row of this walk record what is on disk |
| History.NextKeepsTidy | internal/v3/pipeline/runner.go:215-248 | every commit keeps referential integrity, the key sets of vectors and chunks equal, and every unfinished file free of rows |
| History.NodesFirstOrphansVectors | internal/v3/pipeline/runner.go:231-237 | deleting the nodes before the vectors leaves a vector without its chunk: the delete order matters |
| History.OthersKeepRows | internal/v3/pipeline/runner.go:208-337 | a file's transaction touches no row of another file |
| Keeping.AgreeKeepsRows | internal/v3/pipeline/runner.go:208-337 | nor does it change any status, node, chunk or vector of one |
| Keeping.UpsertKeepsRows | internal/v3/walker/walker.go:44-50 | an upsert changes no row of another file, and none of its own unless the sha256 changes |
| Safety.NextStaysFaithful | internal/v3/pipeline/runner.go:84-337 | one commit of any kind keeps every file's rows those of a from-scratch pass over its recorded content |
| Safety.EmptyIsTidy | internal/v3/store/migrations/0001_init.sql:18-158 | an index just created is tidy and faithful, so the theorems cover every run from an empty database on |
| Safety.EveryStateTidy | internal/v3/pipeline/runner.go:215-248 | in every committed state, whatever indexers took turns: each vector's chunk exists and each chunk has its one vector, a done file has all three passes done, no running row is ever committed, and an unfinished file has no rows |
| Safety.EveryStateFaithful | internal/v3/pipeline/runner.go:84-337 | in every committed state a done file has exactly the nodes, chunks and vectors of a from-scratch pass, up to row ids |
| Safety.IncrementalEqualsRebuild | internal/v3/pipeline/runner.go:84-337 | two databases with any pasts agree on every settled file of the same path and sha256: done in both or neither, and the same index where done |
| Safety.DoneIsNotSkipped | internal/v3/pipeline/runner.go:250-301 | no content is both indexed and skipped |
| Coverage.JudgeIs | internal/v3/pipeline/runner.go:250-301 | a file is indexed exactly if it is code or a document of text, at most 32 MiB and without a NUL byte; the other ones are skipped with their reason, or too large |
| Coverage.RealizedCarries | internal/v3/pipeline/runner.go:303-486 | a file with the rows of a from-scratch pass has one node per symbol of its grammar, or one file node, and chunks that cover each symbol or the whole text, each with its node, kind, token count and the vector of its own text |
| Coverage.RefusedIs | internal/v3/pipeline/runner.go:282-336 | the passes fail for a reason in the content exactly when the grammar reports an error, a symbol lies outside the text, or a vector has the wrong length |
| Staging.BatchesJoin | internal/v3/pipeline/runner.go:322-332 | writing two batches is writing one long one, so the batch size does not matter |
| Staging.PutVectorsRows | internal/v3/pipeline/runner.go:469-486 | embedding the chunks in turn writes exactly one vector per chunk, each of its own text, and touches no other |
| Staging.StagedIsIndexed | internal/v3/pipeline/runner.go:303-336 | a transaction in which the three passes succeeded is exactly the indexing commit of the file's recorded content |
| Walking.FlushEffect | internal/v3/walker/walker.go:36-66 | after a flush the rows seen this run record what is on disk |
| Walking.ReconcileEffect | internal/v3/pipeline/runner.go:116-120 | after the walk and the reconciliation every live file is on disk as recorded |
| Walking.FlushUndisturbed | internal/v3/walker/walker.go:36-66 | a flush takes no file away, and every file whose sha256 is that of its content keeps its index |
| Walking.ReconcileCatalogues | internal/v3/pipeline/runner.go:107-120 | walk and reconciliation bring the files table up to date: a row for every file the walk can see, as it is on disk, and any other row as it was but for the mark of its deletion |
| Pipeline.Runner.constructor | internal/v3/pipeline/runner.go:84-91 | a runner starts with its database as the only state of its record |
| Pipeline.Runner.Run | internal/v3/pipeline/runner.go:84-176 | a successful run has exactly the readable, not ignored files of the disk live and every row of the files table up to date; it attempts exactly the live files whose index is not of their present content, each once, and keeps the index of all others; every live file is failed, or indexed if it is code or text of at most 32 MiB without NUL and skipped with its reason if not, and a file whose content is refused failed; a run that meets no failing outside call succeeds, and its failed files are exactly those refused; any run makes only legal commits |
| Pipeline.Runner.WorkThrough | internal/v3/pipeline/runner.go:143-171 | the main loop terminates, processes no file twice, and on normal exit has processed exactly the files that were pending at its start, once each, whichever pending ids each fetch returns |
| Pipeline.Runner.ProcessBatch | internal/v3/pipeline/runner.go:153-167 | one fetched batch: each id not attempted before is processed once, the others not again, and the books stay right |
| Pipeline.Runner.PendingFiles | internal/v3/pipeline/pipeline.go:66-88 | any subset of the pending ids of size min(limit, number pending), without repetition |
| Pipeline.Runner.ProcessOneFile | internal/v3/pipeline/runner.go:180-203 | unless the run was cancelled the file is indexed or skipped as its content asks, or counted as failed; a failed file changes nothing but its status row, and other files keep all their rows; without failing outside calls it fails only for a reason in its content, and the failed row names the pass |
| Pipeline.Runner.RunPerFile | internal/v3/pipeline/runner.go:208-337 | success is exactly one commit, by which a file of code or text is indexed and any other skipped with its reason, all other files keeping their rows; any other outcome commits nothing and leaves the database as it was; without failing outside calls it succeeds exactly for content that is not refused |
| Pipeline.Runner.RunPasses | internal/v3/pipeline/runner.go:303-336 | the transaction after the three passes is the staged index of the file's content |
| Pipeline.Runner.RunStructural | internal/v3/pipeline/runner.go:343-403 | one node per symbol in order, or one file node, and symNodes naming the last node of each symbol |
| Pipeline.Runner.RunChunker | internal/v3/pipeline/runner.go:408-465 | one chunk row per chunk in order, of the right node and kind |
| Pipeline.Runner.FlushEmbedBatch | internal/v3/pipeline/runner.go:469-486 | the buffered chunks get their vectors and the buffer is emptied; a failed flush is an error |
| Pipeline.Runner.RunEmbeddings | internal/v3/pipeline/runner.go:316-336 | for any batch size the vectors written are those of the chunks one by one; nothing an earlier file buffered is written |
| Pipeline.WriteBatch | internal/v3/embed/writer.go:67-87 | each vector is written byte for byte as the embedder made it, and a wrong length is an error |
| Pipeline.Int8s | internal/v3/pipeline/runner.go:607-613 | reading bytes as int8 and writing them back as bytes loses nothing |
| Pipeline.CodesSurvive | internal/v3/embed/query.go:34-39 | an int8 code turned into its byte and read back as int8 is the same code |
| Pipeline.BytesToInt8 | internal/v3/pipeline/runner.go:607-613 | the loop reinterprets every byte |
| Pipeline.ToBlob | internal/v3/embed/writer.go:78-81 | the loop turns every int8 back into its byte |
| Pipeline.Runner.RecordFailure | internal/v3/pipeline/runner.go:517-531 | counts the failure and marks the pending file's pass failed, or leaves the row unwritten if the write fails |
| Pipeline.Runner.Walk | internal/v3/walker/walker.go:29-118 | after the walk the rows seen are exactly the readable, not ignored files of the disk, as recorded, and their number is the count; every other file keeps its row, and every unchanged one its index |
| Pipeline.Runner.FlushWalk | internal/v3/walker/walker.go:36-66 | a batch is upserted whole or not at all |
| Pipeline.Runner.MarkDeleted | internal/v3/pipeline/runner.go:114-120 | exactly the files this walk did not see are marked deleted, and the files then pending are the live ones whose index is not of their present content |
| Pipeline.Runner.EnsureFingerprint | internal/v3/embed/writer.go:52-62 | succeeds only with the runner's own fingerprint in place, writing it only if there was none |
| RunnerSteps.HistoryStaysFaithful | internal/v3/pipeline/runner.go:84-337 | every state a runner ever commits is tidy and faithful if the one it started from was |
| RunnerSteps.CompletedRunsAgree | internal/v3/pipeline/runner.go:84-337 | two completed runs over the same disk, from any two pasts, leave the same index for every file both settled |
| RunnerSteps.DoneFileIsWhole | internal/v3/pipeline/runner.go:205-248 | a done file carries no failed row and has every chunk embedded |
| Lives.Life | internal/v3/pipeline/runner.go:84-337 | one life of the indexer, over any disk and killed after any of its commits, keeps the index tidy and faithful |
| Lives.ManyLives | internal/v3/pipeline/runner.go:84-337 | so do any number of lives from an empty database, each over its own disk |
| Lives.LivesThenRun | internal/v3/pipeline/runner.go:84-176 | after any such lives a completed run leaves exactly the files it can see live, each as a from-scratch pass over its content makes it but for the files counted as failed; a run that meets no failing outside call completes, and then only files with refused content failed |
| Fingerprints.VectorsNeverMixed | internal/v3/embed/writer.go:52-62 | indexers of any configurations take turns, and in every state all vectors are of the stored fingerprint's model |
| Fingerprints.FingerprintIsForever | internal/v3/store/fingerprint.go:29-68 | a fingerprint row once written never changes |
| Gate.SemanticIndexCompatible | internal/v3/embed/compat.go:30-51 | open exactly for a missing row or the same mode; closed on any fault |
| Gate.GateSoundIff | internal/v3/grpc/server.go:60-72 | in every state an index can reach, a server that starts ungated only ever searches vectors made by a model of its own mode from their chunks' texts, through every later run of every indexer, if and only if the row existed when it started; without the row a run stores a vector of another mode |
| Quantize.QuantizeInt8 | internal/v3/embed/quantize.go:57-59 | every component gets its code at scale 256, inside [-127, 127] |
| Quantize.QuantizeAt | internal/v3/embed/quantize.go:63-76 | the loop fills every slot with the code of its component |
| Quantize.WithinHalfIff | internal/v3/embed/quantize.go:66-72 | a code is within 1/2 of the scaled component if and only if that is at most 127.5 in size |
| Quantize.CodeIsNearest | internal/v3/embed/quantize.go:63-76 | the code is the nearest whole number to the scaled component, halves away from zero, and 127 or -127 beyond |
| Quantize.CodeIsOdd | internal/v3/embed/quantize.go:66-72 | the code of -x is minus the code of x |
| Quantize.CodeIsMonotone | internal/v3/embed/quantize.go:66-72 | a larger component never gets a smaller code |
| Quantize.CodeDistanceUpper | internal/v3/embed/quantize.go:63-76 | the int8 distance of unclipped n-vectors is at most the scaled distance plus the root of n |
| Quantize.CodeDistanceLower | internal/v3/embed/quantize.go:63-76 | and at least the scaled distance minus the root of n |
| Quantize.RankingPreserved | internal/v3/embed/quantize.go:53-59 | vectors whose scaled distances differ by more than twice the root of n keep their order as int8 codes |
| Quantize.CauchySchwarz | internal/v3/embed/quantize.go:53-56 | the inequality behind the distance bounds, for vectors of any length |
| Quantize.Triangle | internal/v3/embed/quantize.go:53-56 | the triangle inequality for bounds of norms |
| Fusion.Tally | internal/v3/grpc/tools/search_broadly.go:210-224 | visiting the lists in any order leaves for each node its score over all its occurrences |
| Fusion.SortHits | internal/v3/grpc/tools/search_broadly.go:229-234 | the hits of distinct nodes strictly by score descending, node id ascending, none lost |
| Fusion.RrfFuse | internal/v3/grpc/tools/search_broadly.go:209-236 | each node of the lists exactly once with the sum of 1/(k+rank+1), strictly ordered |
| Fusion.FuseTop | internal/v3/grpc/tools/search_broadly.go:160-164 | the kept hits are ranked and at most `max` (20 unless asked for, never over 100); any node left out ranks behind all of them, and none is left out while there is room |
| Fusion.FusionIgnoresMapOrder | internal/v3/grpc/tools/search_broadly.go:211-224 | any two fusions of the same lists have the same nodes and scores in the same places, whatever order the map was visited in |
| Fusion.BeatingEverywherePrecedes | internal/v3/grpc/tools/search_broadly.go:209-236 | a node that beats another in every list, each at most once per list, comes first |
| Fusion.MassIsConserved | internal/v3/grpc/tools/search_broadly.go:211-219 | the scores add up to the weights of all list entries |
| Fusion.MetOnce | internal/v3/grpc/tools/search_broadly.go:212-218 | a node met once in a list gets 1/(k+rank+1) from it, and one not met gets nothing |
| Fusion.ScoreSplit | internal/v3/grpc/tools/search_broadly.go:211-219 | a score is the sum over the sources, in whatever order |
| Ndcg.HitRelevance | scripts/retrieval-harness.go:277-285 | the highest grade of a judgment whose path occurs in the hit's, or 0 |
| Ndcg.NdcgAtK | scripts/retrieval-harness.go:238-274 | DCG of the hits' relevances over DCG of the grades sorted descending, 0 when the latter is 0 |
| Ndcg.BoundedIffAhead | scripts/retrieval-harness.go:252-268 | DCG@k is at most IDCG@k for every decreasing discount if and only if the ideal's gains lead in every prefix |
| Ndcg.TopGainsMost | scripts/retrieval-harness.go:260-268 | any at most m of the grades, each taken as often as it was given, gain at most what the m highest gain |
| Ndcg.IdealIsAhead | scripts/retrieval-harness.go:238-274 | hits that claim distinct judgments never lead the sorted grades in any prefix |
| Ndcg.NdcgAtMostOne | scripts/retrieval-harness.go:238-274 | then NDCG is between 0 and 1 for every positive decreasing discount |
| Ndcg.NdcgIsOneIff | scripts/retrieval-harness.go:238-274 | and is 1 if and only if the hits gain at every position up to k what the grade-sorted order gains there, for every strictly decreasing discount |
| Ndcg.LastGradeWins | scripts/retrieval-harness.go:240-243 | the grade of a path is that of the last judgment on it |
| Ndcg.GainDoubles | scripts/retrieval-harness.go:252 | one grade more doubles the gain and adds one |
| Ndcg.RepeatedHitsExceedOne | scripts/retrieval-harness.go:247-253 | one path returned twice for one judgment gives NDCG above 1 |
| Ndcg.RecallAtK | scripts/retrieval-harness.go:203-228 | the share of relevant paths credited to the first k hits, each hit with at most one it matches that no earlier hit was credited with, and none only when there is no such path; for hits that match one relevant path at most: the share some hit among the first k matches |
| BertTok.SplitOnAddedTokens | internal/v3/embed/berttok/berttok.go:168-196 | the segments spell the text back, each token is leftmost, longest on ties and first listed, and no gap follows a gap |
| BertTok.FindNext | internal/v3/embed/berttok/berttok.go:174-184 | the search finds the leftmost, then longest, then first listed occurrence, or none |
| BertTok.SplitIsUnique | internal/v3/embed/berttok/berttok.go:168-196 | a text has exactly one such split |
| BertTok.NoTokenInGap | internal/v3/embed/berttok/berttok.go:185-191 | no added token occurs inside a plain segment |
| BertTok.BasicTokenize | internal/v3/embed/berttok/berttok.go:269-275 | splitting into fields and then at punctuation gives the tokens a single pass reads off |
| BertTok.SplitOnPunct | internal/v3/embed/berttok/berttok.go:277-296 | the same for one word and its rune buffer |
| BertTok.TokensKeepRunes | internal/v3/embed/berttok/berttok.go:269-296 | every token is one punctuation rune or a run without any, and together they are the text's non-space runes in order |
| BertTok.Retokenize | internal/v3/embed/berttok/berttok.go:269-296 | any well-formed tokens joined with blanks tokenize to themselves |
| BertTok.TokenizeIsStable | internal/v3/embed/berttok/berttok.go:269-296 | tokenizing is a fixed point of joining with blanks and tokenizing again |
| BertTok.WordPiece | internal/v3/embed/berttok/berttok.go:300-330 | a single [UNK] when the word is over-long or the greedy walk gets stuck, else the ids along the cuts, each piece the longest match at its position; both loops terminate |
| BertTok.UnknownOrSpelled | internal/v3/embed/berttok/berttok.go:300-330 | a word is unknown if and only if it is over-long or no greedy walk spells it |
| BertTok.SpelledOnce | internal/v3/embed/berttok/berttok.go:305-329 | a word has at most one greedy walk to its end, and then no walk is stuck |
| BertTok.SpellBack | internal/v3/embed/berttok/berttok.go:312-328 | the pieces of the ids, continuation prefix stripped after the first, concatenate back to the word |
| BertTok.UnkMeansUnknown | internal/v3/embed/berttok/berttok.go:323-325 | the result is [UNK] alone if and only if the word is unknown, unless the word itself is a vocabulary key of that id |
| BertTok.Encode | internal/v3/embed/berttok/berttok.go:124-158 | always maxSeqLen ids: CLS, the longest content prefix that fits, SEP, padding; a mask of ones then zeros; type ids all zero; the content is, segment by segment in the order of the text, the id of an added token or the words of a gap in order, each the ids of its greedy spelling or a single [UNK] |
| BertTok.EncodingReadsBack | internal/v3/embed/berttok/berttok.go:124-158 | for a text of known words the ids between CLS and SEP read back through the inverse vocabulary to the beginning of its normalized runes other than spaces, and to all of them when they fit |
| BertTok.EncodingIsUnique | internal/v3/embed/berttok/berttok.go:124-158 | the encoding is a function of the text |
| Browse.RangeIsPrefix | internal/v3/grpc/tools/browse_folder.go:187-196 | a string is in [s, prefixUpperBound(s)) if and only if it has prefix s, also when s is all 0xff |
| Browse.PrefixUpperBound | internal/v3/grpc/tools/browse_folder.go:187-196 | the backwards loop over the buffer computes that bound |
| Browse.ListingIsTree | internal/v3/grpc/tools/browse_folder.go:57-125 | without backslashes in paths the listing is exactly the live files directly in the folder and the subdirectories that hold one |
| Browse.LeadsIff | internal/v3/grpc/tools/browse_folder.go:86-95 | a parent contributes the segment if and only if the path goes on below prefix and segment |
| Browse.Subdirectories | internal/v3/grpc/tools/browse_folder.go:57-104 | the scan collects exactly the segments some live file's parent leads through |
| Browse.BrowseFolder | internal/v3/grpc/tools/browse_folder.go:29-165 | every entry once in path order, NOT_FOUND exactly for a non-root folder without entries, and the page at the cursor |
| Browse.FollowRest | internal/v3/grpc/tools/browse_folder.go:150-162 | following cursors from any place brings exactly the rest of the listing |
| Browse.PagesCoverListing | internal/v3/grpc/tools/browse_folder.go:150-162 | following cursors from empty brings every entry exactly once in path order in max(1, ceiling(n / maxItems)) pages |
| Browse.BrowseAll | internal/v3/grpc/tools/browse_folder.go:29-165 | a client that calls again with each cursor until there is none gets the whole listing, every entry once in path order, in max(1, ceiling(n / maxItems)) calls, although every call lists anew |
| Browse.ListingIsUnique | internal/v3/grpc/tools/browse_folder.go:149-150 | entries with distinct paths have one sorted listing, so the pages of separate calls fit together |
| Browse.TreePathsDistinct | internal/v3/grpc/tools/browse_folder.go:57-150 | when no live file is also a directory, no two entries of a listing share a path |
| Migrate.Database.Migrate | internal/v3/store/migrate.go:24-73 | applies a front part of the pending scripts, all of them when it succeeds, and none above version 0 before the backup is taken when one is asked for; it succeeds when no outside call and no script fails |
| Migrate.ListPending | internal/v3/store/migrate.go:109-134 | the scripts above the current version, each as often as it is there, sorted by version; strictly ascending when versions are distinct |
| Migrate.CallResumes | internal/v3/store/migrate.go:49-71 | one call, however it ends, goes from one step of the chain of scripts to a later one |
| Migrate.EveryRunIsAChain | internal/v3/store/migrate.go:24-73 | any calls by any releases, each cut off anywhere, leave exactly the scripts up to schema_version, applied once each in ascending order |
| Migrate.CompletedIsWhole | internal/v3/store/migrate.go:24-73 | once a call of the newest release completed, the database is what one uninterrupted call makes, and further calls change nothing |
| Migrate.ResumesIff | internal/v3/store/migrate.go:62-64 | a cut-off upgrade goes on just after the applied scripts if and only if the scripts keep the config row |
| Migrate.RowlessScriptRunsTwice | internal/v3/store/migrate.go:62-64 | a first script that makes the table without its row is applied again by the next call |
| Migrate.ShippedScriptsKeepRow | internal/v3/store/migrations/0001_init.sql:4-190 | they do when the first script makes the row and the others leave it alone |

## Left out

- Quantize.QuantizeInt8: exact reals, as `Quantize.QuantizeAt`.
- Quantize.QuantizeAt: does not model float32 rounding or the int32 conversion of components beyond its range; components are exact reals.
- Quantize.RankingPreserved: takes the two distances and the root of n as numbers with the right squares, because Dafny's reals have no square root.
- Fusion.RrfFuse: the order of matchedSources and the choice among several hydrated nodes depend on the map order in the source too; only which sources and that some hydrated node is chosen is stated.
- Ndcg.NdcgAtK: does not model negative grades, and the discount is any function in place of 1/log2.
- Browse.ListingIsTree: paths are clean absolute paths with '/' as separator and hold no backslash; Windows paths are not modelled.
- Browse.BrowseFolder: takes the normalized path and the decoded cursor; base64, size, mtime and content class of entries, and query errors are not modelled.
- BertTok.Encode: the normalizer (cleaning, CJK spacing, NFD, lower-casing) is an arbitrary function, and invalid UTF-8 input is not modelled.
- Migrate.ListPending: file names are already parsed; scripts of equal versions come in some sorted order, which the source does not fix either.
- Pipeline.Runner.Run: a commit that reports an error is taken as not committed, the embedder and the writer are ready or not as a whole, and log output is not modelled.
- Pipeline.Runner.Walk: the order in which files are visited is not stated, and a file is readable or not for the whole walk.
- Pipeline.Runner.RunChunker: the header column is not modelled; the chunker never sets it.
- Prose.ChunkProse: requires TargetTokens to be at most MaxTokens + 1 and the counts to be natural numbers; `ProseLimits.CutInsideIff` shows that beyond this the hard cut can fall outside the text, where the Go slice panics.
- ProseLimits.FitsIff: takes TargetTokens at most MaxTokens; with one more, a buffer joined at a separator can itself be over MaxTokens and reach the hard cut with separators in it.
- ProseBudget.ChunksAreSound: takes TargetTokens at most MaxTokens, for the same reason.
- ProseTight.TightOffsetsAreExact: takes TargetTokens at most MaxTokens, for the same reason.
- The full-text table and its triggers, timestamps other than last_seen and deleted_at, and row ids beyond being unused.
- gRPC, MCP, sockets, TLS and generated code, which only move data.
- The command line, terminal output, scaffolding and the older tool server, whose properties are easy ones.
- SQLite, sqlite-vec, tree-sitter, tiktoken and ONNX Runtime, which appear as functions and maps.
