# CodePilot backend: a verified model

This project models the four stateful parts of the CodePilot backend and proves properties of them that
hold over every input, every run and every interleaving.

| file | what it models |
|---|---|
| `RefreshTokens.dfy` | refresh-token families: login, rotation, replay, logout, logout-all, and the commit rule of the auth routes |
| `Lines.dfy` | `str.splitlines`, `"\n".join`, `str.split("\n")`, `_line_slice` |
| `ChunkSplitter.dfy` | the overlapping window splitter with its halving branch |
| `FileChunks.dfy` | the fallback parser and `_materialize_file`; end-to-end coverage |
| `IndexBuild.dfy` | one index build: vector reuse by cache key, batches, the cursor loop, statistics; histories of builds |
| `JoinedFields.dfy` | reading back joined fields and decimal numbers |
| `CacheKeys.dfy` | what the embedding cache key says about a chunk's search text, what it leaves out, and when an incremental build is exact |
| `ChunkIds.dfy` | when two chunks of a build get the same id |
| `HybridSearch.dfy` | scores of stored rows, rankings, reciprocal-rank fusion, best chunk per path |
| `Similarity.dfy` | cosine similarity, tokens, lexical score |
| `Lifecycle.dfy` | repositories, revisions, runs and snapshots as committed steps, and the invariant of every committed state |
| `LifecycleCalls.dfy` | who may call, exactly when each call commits, and every row each call and task leaves, in the fields of the rows |
| `LifecycleRuns.dfy` | whole-run properties of the lifecycle |
| `LifecycleChunks.dfy` | whether an indexed revision still has its chunks, over whole runs |
| `LifecycleStalls.dfy` | how long a queued index run waits, over whole runs, and the third commit that waits for ever |
| `LifecycleService.dfy` | the same services written as transactions that update rows one by one, proved equal to the steps |
| `RateLimit.dfy` | the fixed-window limiter over INCR and EXPIRE |
| `Idempotency.dfy` | reservations over SET NX, GET and SET |
| `Options.dfy` | optional values |

Conventions. Tables are maps held in a field of a service object; each method is proved against a function on
the tables, and the properties are proved about that function and about runs of it. A raw token, its hash and
its row share one identifier (hashing is injective). Time, fresh ids, the outcome of clone and scan, the
parser, the content digest (injective and without the separator `|`), the embedding provider and unexpected
exceptions are parameters. Scores are exact reals. API calls and tasks are serializable transactions; Redis commands are atomic, and calls interleave
between them.

## Findings

These follow from the code as it is and are proved below.

- A logout with an already replaced token leaves its session alive (`FamilySurvivesIff`,
  `LogoutWithReplacedTokenKeepsSession`).
- `deleting` is not stable: an index task that is delivered again finds the revision indexed and writes
  `ready` without consulting the transition table; the deletion then never completes (`DeletingLeaves`,
  `LostDeletionNeverCompletes`, `LostDeletionIsReachable`).
- The same write, and a redelivered older ingestion task, can orphan a queued ingestion run; from then on every
  sync of the repository is refused for ever (`OrphanedByIff`, `OrphanedRunIsPermanent`, `OrphanIsReachable`).
- The query for the latest ready snapshot raises when there are two, so a repository never gets a third
  snapshot (`NoThirdSnapshot`, `ThirdCommitIsStuck`). The index task of a further commit rolls its run back to
  queued; every later request is answered with that run, and no task is sent for it. The run waits until one of
  its tasks is delivered while the latest commit is one of the two indexed ones (`WaitsUntilItCommits`,
  `RequestsAreAnswered`, `WaitsWhileFullIff`).
- A clone URL is registered once per owner, for ever: the unique constraint also counts deleted rows
  (`UrlIsRegisteredOnce`), so the re-create branch at backend/app/services/ingestion.py:424 never adds a row.
- A repository can be `ready` with an empty search. Ingesting the indexed commit again, as an ordinary sync of
  an unmoved remote does, replaces its file rows and deletes its chunks with them; the snapshot row stays
  `ready`, so no later index task builds the chunks again. An indexed revision has its chunks if and only if its
  commit was not ingested again since its build (`SearchableIff`, `LostChunksNeverReturn`,
  `EmptySearchIsReachable`).
- A build meets its own primary key, and fails as a whole, if and only if two symbols of one file share a part:
  the same text at the same part number and on the same lines of their own slices (`BuildIdsDistinctIff`).
  Symbols with equal source text always do (`EqualSourcesFailBuild`), different ones can
  (`DifferentSourcesCanShare`).
- The embedding cache key omits signature, docstring and imports, and the module name of a file without symbols,
  so a change there alone leaves a stale vector (`StaleVector`, `DocstringChangesText`). An incremental build is
  exact if and only if these parts are, as written into the search text, unchanged for every reused chunk
  (`ExactIffOmittedPartsKept`, `NextBuildIsExactIff`).
- Two chunks of different paths and names can have the same key when these hold its separator
  (`KeysCanBeAmbiguous`); equal keys mean equal fields if and only if the paths have equally many separators
  (`KeyFieldsIff`), as they have when no name holds one or every name follows its path (`KeysAreClearWhen`).
- `max_chars` is not a bound (`CharLimitIsNotABound`). For lines of at most n characters it is one if and only if
  half a window of such lines fits, that is (n + 1) * max(1, max_lines / 2) - 1 <= max_chars (`CharLimitIff`); for
  lines that just fit it, only with windows of at most three lines (`CharLimitIsHardIff`).
- A lost EXPIRE locks the caller out for good once the limit is reached (`LostExpiryLocksOut`), and lets
  `fail_closed` instead of the limit answer the call that opened the window (`WindowAcceptsMinIff`).
- A record that expires under a `store_result` is written back over another request's reservation
  (`ExpiryUnderStoreOverwrites`). Every record has a creator of its lifetime and fingerprint if and only if each
  `store_result` writes over a record with the fingerprint it has read (`RecordsHaveCreatorsIff`).

Two places where code and intent differ: `backend/app/workers/celery_app.py:42-50` does not register
`index_repository` although the API sends it (backend/app/api/v1/indexing.py:38-42); the model assumes that the
sent task runs. `docs/architecture/authentication.md` does not say that presenting a token of a disabled user
revokes its family; the code does, and the model follows it.

## Model

| member | source | states |
|---|---|---|
| RefreshTokens.AuthService.Rotate | backend/app/services/auth.py:132-173 | rotation row by row (unknown, revoked, expired, disabled, accepted) leaves exactly the tables and answer of the specification |
| RefreshTokens.AuthService.NewSession | backend/app/services/auth.py:117-130 | adds one live token expiring one lifetime later, or faults on a duplicate hash |
| RefreshTokens.AuthService.Logout | backend/app/services/auth.py:175-181 | revokes the presented token only if it exists and is live, and no other row |
| RefreshTokens.AuthService.Commit | backend/app/api/v1/auth.py:84-97 | a call's effects are kept on success and on an authentication error, and undone on any other exception |
| RefreshTokens.RotationAcceptedIff | backend/app/services/auth.py:136-171 | a rotation succeeds if and only if the token is live, unexpired, its user active and the replacement new; then exactly two rows differ, with their values |
| RefreshTokens.LoginIssuesIff | backend/app/services/auth.py:91-130 | a login issues a token if and only if the user is active and the token new; then exactly that row is added, with its fields |
| RefreshTokens.RevokedIff | backend/app/services/auth.py:132-185 | exactly which live rows each call revokes, and when: replay and disabled user the family, expiry, rotation and logout the presented row, logout-all the user's rows |
| RefreshTokens.CallsAnswer | backend/app/services/auth.py:136-158 | exactly which calls are unauthorized, done or faults, and which users are active after them |
| RefreshTokens.OtherCallsOnlyRevoke | backend/app/repositories/domain.py:44-56 | every call that issues nothing only sets `revoked_at`, to the call's time, on rows that were live |
| RefreshTokens.RowsAreWrittenOnce | backend/app/services/auth.py:132-185 | over every run user, family and expiry of a row never change, and a revoked row is frozen |
| RefreshTokens.SingleUse | backend/app/services/auth.py:132-173 | over every run each raw token is accepted by `rotate` at most once |
| RefreshTokens.RotationExtendsChain | backend/app/services/auth.py:159-171 | only the newest token of a family can be rotated, and the new token is appended to the chain |
| RefreshTokens.FamiliesAreChains | backend/app/services/auth.py:117-173 | over every run each family is a single linear chain under `replaced_by_id` with one user and only its tail possibly live |
| RefreshTokens.ChainShape | backend/app/services/auth.py:159-171 | one user per family, at most one live token, a successor only on revoked tokens, at most one predecessor each |
| RefreshTokens.FamilySurvivesIff | backend/app/services/auth.py:140-185 | a family is alive after a call if and only if it was and the call is no replay, no expired or disabled-user rotation, no logout of its live token and no logout-all of its user |
| RefreshTokens.LogoutWithReplacedTokenKeepsSession | backend/app/services/auth.py:175-181 | a run of login, refresh and logout with the replaced token that ends with the family alive |
| RefreshTokens.DeadFamiliesStayDead | backend/app/services/auth.py:132-185 | a family without a live token never changes again and issues nothing, in any run |
| RefreshTokens.EndedFamilyIssuesNothing | backend/app/api/v1/auth.py:89-94 | replay, logout, logout-all, disabled and expired rotation end the family for good although the rotation answered with an error |
| RefreshTokens.TokensWereIssued | backend/app/services/auth.py:117-171 | every token was issued by an earlier call of its family and expires one lifetime after it |
| RefreshTokens.IdleFamilyNeverResumes | backend/app/services/auth.py:151-166 | once every issue in a family is at least one lifetime old no later rotation in it succeeds |
| Lines.SplitLinesOfJoin | backend/app/services/indexing.py:984-990 | a joined slice splits back to its lines up to one trailing empty line |
| Lines.SplitNewlineOfJoin | backend/app/services/indexing.py:894 | splitting on newline recovers joined lines exactly |
| Lines.SplitLinesAtTerminator | backend/app/services/indexing.py:888 | text without a line end is one line, and a line is cut off at each kind of line end, a carriage return with its line feed counting as one |
| Lines.CharacterTables | backend/app/services/indexing.py:766 | which code points end a line and which are blank, one by one; every line end is blank |
| ChunkSplitter.SplitChunkText | backend/app/services/indexing.py:881-903 | the loop terminates for every text and every overlap and returns the specified parts |
| ChunkSplitter.PartsAreTheirRanges | backend/app/services/indexing.py:891-903 | starts strictly increase, no part exceeds `max_lines`, each text is exactly its stated line range |
| ChunkSplitter.PartsRebuildTheText | backend/app/services/indexing.py:881-903 | keeping only lines past the highest end so far rebuilds the text from the parts alone |
| ChunkSplitter.EveryLineIsInAPart | backend/app/services/indexing.py:891-903 | the splitter leaves no gap |
| ChunkSplitter.PartsFollowTheLimits | backend/app/services/indexing.py:891-902 | each part ends at the end of its window if and only if the window fits `max_chars` or is one line, else after half its lines; the next starts `overlap_lines` before that end but later than this one; the last part ends the text |
| ChunkSplitter.FittingTextIsOnePart | backend/app/services/indexing.py:888-901 | a text that fits both limits is the one part of all its lines |
| ChunkSplitter.PartCount | backend/app/services/indexing.py:891-903 | when no window the loop visits is halved, n lines give exactly 1 + ceil(max(n - max_lines, 0) / (max_lines - overlap_lines)) parts |
| ChunkSplitter.AtMostOnePartPerLine | backend/app/services/indexing.py:891-903 | with halving, and for any overlap, there are at most as many parts as lines |
| ChunkSplitter.CharLimitIff | backend/app/services/indexing.py:895-898 | for any limits and line length, `max_chars` bounds the parts of all texts with such lines if and only if half a window of them fits |
| ChunkSplitter.CharLimitIsHardIff | backend/app/services/indexing.py:895-898 | `max_chars` bounds the parts of all texts whose lines fit it if and only if windows have at most three lines |
| ChunkSplitter.PartsFitOnlyIfLinesDo | backend/app/services/indexing.py:891-903 | for any limits, parts that fit hold only lines that fit |
| ChunkSplitter.CharLimitIsNotABound | backend/app/services/indexing.py:895-898 | a text of short lines with a part over the limit |
| FileChunks.FallbackParsedFile | backend/app/parsing/index.py:482-526 | the window loop returns the specified symbols, and one empty symbol for an empty file |
| FileChunks.WindowsTileTheFile | backend/app/parsing/index.py:485-512 | the 120-line windows cover every line once, in order |
| FileChunks.FallbackSymbolIs | backend/app/parsing/index.py:485-500 | every field of the k-th fallback symbol: lines 120k + 1 to 120k + 120 or the last, name and qualified name with the range, and its lines as signature |
| FileChunks.FallbackSymbolCount | backend/app/parsing/index.py:485-512 | one symbol per window of 120 lines, and one with its fields for an empty file |
| FileChunks.MaterializeFile | backend/app/services/indexing.py:730-870 | the nested loops return the specified chunks of every symbol, or one whole-file chunk |
| FileChunks.Materialize | backend/app/services/indexing.py:745-870 | every accepted file yields at least one chunk |
| FileChunks.SymbolChunksHold | backend/app/services/indexing.py:768-837 | the chunks of a file are those of its symbols in order; each holds exactly the lines of the symbol's source text from its first to its last line, with the symbol's kind and names, its number of the count, its hash and its id |
| FileChunks.WholeFileIsOneChunk | backend/app/services/indexing.py:838-869 | a file without symbols is one chunk from line 1 to its last line, with its fields |
| FileChunks.SourceTextIs | backend/app/services/indexing.py:765-767 | a symbol is chunked from the lines it points at, or from the whole file exactly when all of them are blank |
| FileChunks.ChunkIdIs | backend/app/services/indexing.py:793-805 | the id is made of revision, path, hash, lines and part number, in this order |
| FileChunks.NonBlankLinesAreIndexed | backend/app/services/indexing.py:741-870 | for a file parsed by fallback or without symbols every non-blank line is a line of some chunk's exact content |
| FileChunks.SharedPartSharesId | backend/app/services/indexing.py:768-805 | two symbols whose source texts have an equal part produce chunks with equal ids |
| IndexBuild.BatchesPartition | backend/app/services/indexing.py:906-907 | batching loses and reorders nothing, fills every batch but the last, and makes ceil(n / size) batches |
| IndexBuild.ReuseVectors | backend/app/services/indexing.py:469-478 | the reuse loop sets exactly the reusable vectors and queues the other drafts in order with their texts |
| IndexBuild.EmbedBatches | backend/app/services/indexing.py:480-490 | the cursor loop hands vectors out in queue order across batches, and raises exactly when there are more vectors than drafts |
| IndexBuild.FillVectors | backend/app/services/indexing.py:469-494 | reuse, batches, cursor and zero fill give every draft its specified vector, for any provider |
| IndexBuild.BuildIndex | backend/app/services/indexing.py:402-537 | the build fails exactly on surplus vectors or equal chunk ids; otherwise all chunks are stored with their vectors and the statistics are conserved, with chunks = reused + vectors for one vector per text; read off the previous rows, each chunk gets the vector of the last row with its key, else the next computed one, else zeros, and `reused` counts the first kind; every file statistic is the size of a set of files or paths |
| IndexBuild.ScanFiles | backend/app/services/indexing.py:430-461 | changed + unchanged = accepted = parsed + fallbacks, and one fresh draft per chunk |
| IndexBuild.OneVectorPerText | backend/app/services/indexing.py:480-490 | with one vector per text, whatever their values, there are as many vectors as waiting texts |
| IndexBuild.ComputedInOrder | backend/app/services/indexing.py:480-490 | with each text's own embedding the computed vectors are those of the waiting texts, in order |
| IndexBuild.VectorsInOrder | backend/app/services/indexing.py:480-490 | the vectors are those the provider gave for each batch, batch after batch |
| IndexBuild.BuildHolds | backend/app/services/indexing.py:408-494 | what each stored row holds, in the previous rows and the computed vectors |
| IndexBuild.ReusesIff | backend/app/services/indexing.py:408-476 | a chunk reuses a vector if and only if the last previous row with its key has one |
| IndexBuild.CountsAre | backend/app/services/indexing.py:409-446 | accepted, fallback, unchanged and deleted files are counted as sets of positions and paths |
| IndexBuild.AcceptedInOrder | backend/app/services/indexing.py:410 | the accepted files keep their order and none is left out |
| IndexBuild.IncrementalIsExactIff | backend/app/services/indexing.py:408-494 | whatever the previous rows hold, an incremental build stores what a full rebuild would if and only if every reused vector is the chunk's own embedding |
| CacheKeys.ExactIffOmittedPartsKept | backend/app/services/indexing.py:408-494 | with exact previous vectors, an injective embedding and unambiguous keys, the build is exact if and only if signature, docstring and imports (or module name) of every reused chunk are, as written, those its vector was computed for |
| CacheKeys.NextBuildIsExactIff | backend/app/services/indexing.py:404-494 | the same condition for two builds of a repository's files, the second reusing the rows of the first |
| CacheKeys.EqualKeysEqualTextsIff | backend/app/services/indexing.py:779-792 | chunks with equal, unambiguous cache keys have equal search texts if and only if the omitted parts are written the same |
| CacheKeys.SearchTextIs | backend/app/services/indexing.py:780-792 | every search text is the omitted parts between fields of the chunk, for symbol parts and whole files |
| CacheKeys.AllChunksOrigins | backend/app/services/indexing.py:741-870 | every chunk of a build is made from the part or file the origin list names, in order |
| IndexBuild.IncrementalRefinesRebuild | backend/app/services/indexing.py:408-494 | exact previous vectors and keys that determine texts make every chunk's vector the embedding of its own search text |
| IndexBuild.HistoryIsExact | backend/app/services/indexing.py:404-494 | along successive builds no stored vector goes stale; as the code stands the third build of a repository raises, so a history has at most two |
| CacheKeys.KeyFieldsIff | backend/app/services/indexing.py:936-957 | equal keys mean equal path, hash, lines, part numbers, type and name if and only if the two paths hold equally many separators |
| CacheKeys.KeysAreClearWhen | backend/app/services/indexing.py:936-957 | no key is ambiguous when no name holds the separator, and when every name repeats the separators of its path, as a module name made from a path without a separator in its suffix does |
| CacheKeys.KeysCanBeAmbiguous | backend/app/services/indexing.py:936-957 | whatever the other fields, chunks of different paths and names can have the same key |
| CacheKeys.StaleVector | backend/app/services/indexing.py:936-957 | whenever a part the key omits changes a chunk's embedding, the chunk is stored with the old vector |
| CacheKeys.DocstringChangesText | backend/app/services/indexing.py:780-792 | a docstring alone changes the search text |
| ChunkIds.BuildIdsDistinctIff | backend/app/services/indexing.py:793-805 | the chunk ids of a build are distinct if and only if no two symbols of one file share a part |
| ChunkIds.BuildSucceedsIff | backend/app/services/indexing.py:480-523 | with one vector per text, whatever their values, a build succeeds if and only if no accepted file has two symbols that share a part |
| ChunkIds.SharedPartFailsBuild | backend/app/services/indexing.py:793-805 | one shared part breaks the uniqueness of chunk ids, whatever paths, revision and digest are |
| ChunkIds.EqualSourcesFailBuild | backend/app/services/indexing.py:793-805 | two symbols with equal source text in any accepted file break the uniqueness of chunk ids for the whole build |
| ChunkIds.DifferentSourcesCanShare | backend/app/services/indexing.py:881-903 | two different texts with an equal part |
| ChunkIds.IdsCollideIff | backend/app/services/indexing.py:793-805 | within a revision two ids coincide if and only if path, hash, lines and part number do, for any paths |
| IndexBuild.UnchangedCountsPaths | backend/app/services/indexing.py:416-439 | the unchanged count is the number of previous accepted paths still present with the same hash |
| HybridSearch.SortIsStableSort | backend/app/services/indexing.py:648-663 | rankings are descending permutations that keep ties in their original order |
| HybridSearch.SingleRankings | backend/app/services/indexing.py:648-667 | the dense and the lexical ranking list every chunk by that score, highest first |
| HybridSearch.FusedRanking | backend/app/services/indexing.py:669-678 | the fused ranking lists every chunk by 1/(60 + dense rank) + 1/(60 + lexical rank), highest first |
| HybridSearch.EvidenceCount | backend/app/services/indexing.py:679-704 | as many results as there are paths, up to the limit; one for a limit below one |
| HybridSearch.CandidateIs | backend/app/services/indexing.py:648-663 | a row's dense score is the normalized dot product of its vector with the query's, its lexical score the share of the query's tokens in names and text |
| HybridSearch.Fuse | backend/app/services/indexing.py:669-673 | the accumulation loops score exactly the listed chunks, each with the sum of its reciprocal ranks |
| HybridSearch.HybridScores | backend/app/services/indexing.py:669-678 | n distinct chunks get scores between 2/(60+n) and 2/61 that sum to twice the sum of 1/(60+r) |
| HybridSearch.FusedOrderRespectsBoth | backend/app/services/indexing.py:669-678 | a chunk ahead of another in both rankings comes ahead of it in the fused order |
| HybridSearch.HybridScoresOfBuild | backend/app/services/indexing.py:669-678 | the same bounds and sum for the rows a build with distinct ids has stored, for any query |
| HybridSearch.FusedOrderOfBuild | backend/app/services/indexing.py:669-678 | of two stored rows the one ahead in both rankings is ahead in the fused order |
| HybridSearch.SelectEvidence | backend/app/services/indexing.py:679-704 | the early-exit loop returns the first `limit` entries of the order reduced to the first chunk per path, and one entry for a limit below one |
| HybridSearch.FirstPerPathIs | backend/app/services/indexing.py:679-684 | the reduced order is an increasing selection, each the first of its path, and every path is represented |
| HybridSearch.EvidenceIsBestPerPath | backend/app/services/indexing.py:674-704 | paths distinct, scores non-increasing, each path's best chunk, and fewer than `limit` results only when every path is represented |
| HybridSearch.Search | backend/app/services/indexing.py:638-704 | scores of the stored rows for the query, method dispatch, default limit, fusion and selection together; no answer exactly when the provider has no vector for the query |
| HybridSearch.SearchAnswers | backend/app/services/indexing.py:642-704 | a search leads with the best-ranked row and leaves a stored path out only when the limit is reached |
| HybridSearch.CandidateScores | backend/app/services/indexing.py:648-663 | dense scores lie in [-1, 1], lexical ones in [0, 1]; a row scores 1 lexically if and only if it holds every query token, and densely if it stores the query's vector |
| HybridSearch.PerfectMatchComesFirst | backend/app/services/indexing.py:648-667 | a row that holds all query tokens, or stores the query's vector, puts a score of 1 at the head of its ranking |
| Similarity.CauchySchwarz | backend/app/services/indexing.py:969-977 | the squared dot product is at most the product of the squared lengths, for vectors of any length |
| Similarity.CosineBounds | backend/app/services/indexing.py:969-977 | cosine similarity lies within [-1, 1] for all pairs of vectors |
| Similarity.CosineIsNormalizedDot | backend/app/services/indexing.py:969-977 | multiplied by both lengths the score is the dot product; zero for vectors of different lengths and for zeros |
| Similarity.DotAddsUp | backend/app/services/indexing.py:972 | the dot product is the sum of the products of the entries |
| Similarity.CosineSymmetric | backend/app/services/indexing.py:969-977 | cosine similarity is symmetric |
| Similarity.CosineOfItself | backend/app/services/indexing.py:969-977 | a non-zero vector is exactly similar to itself |
| Similarity.TokensOfJoined | backend/app/services/indexing.py:980-981 | joining texts with a space joins their token lists |
| Similarity.TokensAreRead | backend/app/services/indexing.py:980-981 | other characters are skipped, and a token is read to its last character and folded |
| Similarity.TokenCharacters | backend/app/services/indexing.py:981 | the codes a token starts with, goes on with, and is folded to |
| Similarity.OverlapOfTokens | backend/app/services/indexing.py:960-966 | the summed minimum counts are the size of the multiset intersection |
| Similarity.TokenScoreIs | backend/app/services/indexing.py:960-966 | multiplied by the number of query tokens the score is the size of the multiset intersection |
| Similarity.LexicalScoreIs | backend/app/services/indexing.py:960-966 | the lexical score is that share of the query in the tokens of symbol name, qualified name and text |
| Similarity.TokenScoreBounds | backend/app/services/indexing.py:960-966 | the lexical score lies in [0, 1] and is 1 if and only if a non-empty query multiset is contained in the content |
| Similarity.TokenScoreMonotone | backend/app/services/indexing.py:960-966 | the lexical score is monotone in the content's token multiset |
| Similarity.NamesNeverLowerScore | backend/app/services/indexing.py:962 | adding the symbol's names to the content never lowers the score |
| Lifecycle.CommittedStatesAreSound | backend/app/workers/tasks.py:20-75 | in every reachable committed state nothing is in flight, snapshots are ready and unique, a visible indexed revision has a ready snapshot row, deleted means empty, one active run per repository and type, events numbered 1..k |
| Lifecycle.IngestKeepsInv | backend/app/services/ingestion.py:486-533 | an ingestion task, redelivered or not, keeps the invariant |
| Lifecycle.IndexKeepsInv | backend/app/services/indexing.py:351-538 | an index task, redelivered or not, keeps the invariant |
| Lifecycle.CleanupKeepsInv | backend/app/services/indexing.py:706-715 | a cleanup task keeps the invariant |
| Lifecycle.ApiCallKeepsInv | backend/app/services/ingestion.py:407-479 | create, sync, delete and index requests keep the invariant |
| Lifecycle.FinishedRun | backend/app/services/ingestion.py:543-553 | events added through `next_sequence` continue the numbering 1..k |
| LifecycleCalls.StrangersAreRefused | backend/app/repositories/domain.py:78-85 | a sync, delete or index request by anyone but the owner, or for a deleted or unknown repository, is refused and changes nothing |
| LifecycleCalls.OnlyTheCreatorCalls | backend/app/repositories/domain.py:78-85 | over every run only the user who created a repository can sync, delete or index it |
| LifecycleCalls.SyncCommitsIff | backend/app/services/ingestion.py:451-461 | a sync commits if and only if the owner asks, the repository is visible, `ready` or `failed`, and has no ingestion queued or running; and the rows it leaves |
| LifecycleCalls.DeleteCommitsIff | backend/app/services/ingestion.py:470-475 | a delete commits if and only if the owner asks and the repository is visible and neither `deleting` nor `deleted`; and the row it leaves |
| LifecycleCalls.RequestIndexCommitsIff | backend/app/services/indexing.py:316-349 | an index request commits if and only if the owner asks, the repository is visible and has a revision; it queues a run exactly when none is queued or running |
| LifecycleCalls.CreateCommitsIff | backend/app/services/ingestion.py:417-441 | a create answers a usable repository of the URL, fails on any other row of it, and else adds one with its run |
| LifecycleCalls.TransitionTable | backend/app/services/ingestion.py:51-61 | the allowed targets of each status, one by one |
| LifecycleCalls.IngestLeaves | backend/app/services/ingestion.py:486-533 | every row a committed ingestion leaves: repository, revision, snapshots, the run and its new events |
| LifecycleCalls.IndexLeaves | backend/app/services/indexing.py:351-538 | every row a committed index task leaves: repository, revision, snapshots, the run and its new events |
| LifecycleCalls.CleanupLeaves | backend/app/services/indexing.py:706-715 | every row a cleanup leaves: the repository's snapshots go, others stay, and only a deletion in progress completes |
| LifecycleCalls.AlreadyIndexedIff | backend/app/services/indexing.py:363-364 | in every committed state the already-indexed branch is taken if and only if the latest revision has a snapshot |
| LifecycleRuns.WritesAreEdgesIff | backend/app/services/ingestion.py:51-61 | every committed chain of status writes follows the transition table, except exactly the already-indexed branch outside `ready_for_indexing` |
| LifecycleRuns.WritesAreFaithful | backend/app/services/ingestion.py:481-484 | the last recorded write is the new status and no other repository row changes |
| LifecycleRuns.DeletedIsAbsorbing | backend/app/services/ingestion.py:535-541 | a deleted repository never changes again and stays without snapshots, over all interleavings |
| LifecycleRuns.DeletingLeaves | backend/app/services/indexing.py:364-373 | a deletion completes exactly by cleanup and is undone exactly by an index task that finds its revision indexed |
| LifecycleRuns.LostDeletionNeverCompletes | backend/app/services/ingestion.py:535-541 | an undone deletion never reaches `deleted` |
| LifecycleRuns.LostDeletionIsReachable | backend/app/services/indexing.py:364-373 | a run that ends with an undone deletion |
| LifecycleRuns.OrphanedByIff | backend/app/services/indexing.py:364-373 | the steps that orphan a waiting ingestion run, exactly |
| LifecycleRuns.OrphanedRunIsPermanent | backend/app/services/ingestion.py:454-457 | an orphaned run stays queued and every later sync is refused |
| LifecycleRuns.OrphanIsReachable | backend/app/services/indexing.py:364-373 | a run that ends with an orphaned ingestion run |
| LifecycleRuns.IngestCommitsIff | backend/app/services/ingestion.py:486-530 | an ingestion task commits exactly on a queued repository, ends its run, and moves the latest revision exactly on success |
| LifecycleRuns.IndexCommitsIff | backend/app/services/indexing.py:351-408 | an index task commits exactly when the revision is indexed already, or the status allows indexing and there is at most one snapshot |
| LifecycleChunks.SearchableIff | backend/app/repositories/domain.py:157-160 | over every run, the search of a visible repository finds the chunks of its indexed revision if and only if that commit was not ingested again since the build that stored its snapshot |
| LifecycleChunks.ChunksStayIff | backend/app/models/domain.py:205-207 | over every run, a snapshot keeps its chunks exactly until its commit is ingested again; its row does not change |
| LifecycleChunks.LostChunksNeverReturn | backend/app/services/indexing.py:363-373 | lost chunks are never built again while the repository is not deleted |
| LifecycleChunks.IndexMakesSearchableIff | backend/app/services/indexing.py:363-538 | a committed index task leaves the latest revision indexed with its run succeeded, and searchable if and only if it was built now or its chunks were still there |
| LifecycleChunks.EmptySearchIsReachable | backend/app/services/indexing.py:363-373 | a run with every task delivered once to a ready repository without chunks |
| LifecycleRuns.NoThirdSnapshot | backend/app/repositories/domain.py:309-320 | a repository with two snapshots keeps exactly these until it is deleted |
| LifecycleStalls.WaitsUntilItCommits | backend/app/workers/tasks.py:38-52 | over every run, a queued index run waits exactly until a task of its own commits |
| LifecycleStalls.RequestsAreAnswered | backend/app/services/indexing.py:319-323 | while a run waits, every request to index its repository queues nothing, and succeeds if and only if the repository is owned and has a revision |
| LifecycleStalls.FullCommitsIff | backend/app/services/indexing.py:404-408 | with two snapshots an index task commits if and only if the latest commit is one of theirs |
| LifecycleStalls.WaitsWhileFullIff | backend/app/services/indexing.py:404-408 | over every run, with two snapshots a queued index run waits exactly as long as no task of it is delivered on an indexed commit |
| LifecycleStalls.ThirdCommitIsStuck | backend/app/repositories/domain.py:309-320 | a run to two snapshots and a third commit whose index task is refused and whose run answers the next request |
| LifecycleRuns.UrlIsRegisteredOnce | backend/app/services/ingestion.py:417-435 | a registered URL of an owner is never registered again, also after deletion |
| LifecycleService.Service.Transition | backend/app/services/ingestion.py:481-484 | writes the status if and only if the table has the edge |
| LifecycleService.Service.AddEvent | backend/app/services/ingestion.py:543-553 | appends one event numbered one above the maximum |
| LifecycleService.Service.CreateRepository | backend/app/services/ingestion.py:407-441 | existing, refused and new repositories as specified |
| LifecycleService.Service.SyncRepository | backend/app/services/ingestion.py:443-461 | ownership, active run and transition checks, then the queued run |
| LifecycleService.Service.MarkDeleting | backend/app/services/ingestion.py:463-479 | marks an owned repository deleting and deleted |
| LifecycleService.Service.CreateIndexRun | backend/app/services/indexing.py:309-349 | answers the active run or queues a new one |
| LifecycleService.Service.IngestRepository | backend/app/services/ingestion.py:486-533 | the row updates of an ingestion add up to its committed step |
| LifecycleService.Service.CloneAndScan | backend/app/services/ingestion.py:503-530 | what the guarded block writes for a failed clone, a failed scan and a success |
| LifecycleService.Service.IndexRepository | backend/app/services/indexing.py:351-538 | the row updates of an index task add up to its committed step |
| LifecycleService.Service.CleanupRepository | backend/app/workers/tasks.py:60-68 | completes a deletion in progress and removes the repository's snapshots |
| LifecycleService.Service.Transact | backend/app/workers/tasks.py:20-29 | a transaction commits its step or leaves the tables as they were |
| RateLimit.RateLimitService.Enforce | backend/app/services/rate_limit.py:15-26 | counter, expiry and answer in the fields of the key, for every combination of Redis failures and `fail_closed` |
| RateLimit.CounterCountsCalls | backend/app/services/rate_limit.py:18-20 | the counter is the number of calls of the current window |
| RateLimit.WindowEndsIff | backend/app/services/rate_limit.py:18-20 | after its EXPIRE a window ends exactly one length later: an INCR opens the next one if and only if it comes at or after that moment |
| RateLimit.WindowAccepts | backend/app/services/rate_limit.py:15-26 | in every run without a failing INCR, a window accepts its opening call by the limit, or by `fail_closed` when its EXPIRE is lost, and of the others exactly those up to the limit |
| RateLimit.WindowAcceptsMinIff | backend/app/services/rate_limit.py:15-26 | without a failing INCR, a window has accepted exactly min(calls, limit) if and only if its opening call is not still waiting for an allowed place and no lost EXPIRE turned that call's answer around |
| RateLimit.WindowAcceptsMin | backend/app/services/rate_limit.py:15-26 | without a lost EXPIRE or a failing INCR, a window has accepted exactly min(calls, limit) except exactly while its counter has no expiry yet and the limit is not zero |
| RateLimit.WindowsAreDisjoint | backend/app/services/rate_limit.py:18-20 | a call of a later window comes at least one length after the earlier one opened |
| RateLimit.AtMostTwiceTheLimit | backend/app/services/rate_limit.py:15-26 | without a failing INCR, any closed interval of one window length holds at most twice the limit of accepted calls, also when EXPIREs are lost; with limit zero and `fail_closed` off, at most one |
| RateLimit.LostExpiryLocksOut | backend/app/services/rate_limit.py:19-24 | after a lost EXPIRE no call beyond the limit is ever accepted |
| Idempotency.IdempotencyService.Reserve | backend/app/services/idempotency.py:38-83 | undisturbed, a reservation creates, replays a match, or refuses another request's key |
| Idempotency.IdempotencyService.StoreResult | backend/app/services/idempotency.py:85-97 | completes the record, keeps its fingerprint and touches no other key |
| Idempotency.CommandsDo | backend/app/services/idempotency.py:45-97 | what each interleaved command answers and leaves, in the fields of the record |
| Idempotency.RecordsHaveCreatorsIff | backend/app/services/idempotency.py:38-97 | in any run, every record present was created in its lifetime with its fingerprint if and only if each `store_result` writes over a record with the fingerprint it read |
| Idempotency.NoExpiryMakesStoresSafe | backend/app/services/idempotency.py:85-97 | that holds while no record expires under a `store_result` |
| Idempotency.LifetimeIsStable | backend/app/services/idempotency.py:38-97 | then within a lifetime the fingerprint is constant, the status only moves to completed, and no reservation creates |
| Idempotency.RecordHasCreator | backend/app/services/idempotency.py:52-66 | then every record present was created by a reservation of its lifetime whose fingerprint it carries |
| Idempotency.CreatorIsUnique | backend/app/services/idempotency.py:52-66 | in any run, two creating reservations never share a lifetime |
| Idempotency.ReplayCarriesCreatorsFingerprint | backend/app/services/idempotency.py:68-83 | then every replay answer carries the creator's fingerprint, which is the requester's |
| Idempotency.ExpiryUnderStoreOverwrites | backend/app/services/idempotency.py:85-97 | otherwise a late write replaces another request's record, and its creator is refused |

## Left out

- IndexBuild.BuildIndex: a batch size below one (zero raises, a negative one embeds nothing) and a `max_lines` below one are not modelled; both are settings with positive defaults.
- IndexBuild.HistoryIsExact: each build is taken to reuse from the build before it; a change of provider between builds is not part of a history.
- LifecycleService.Service.IndexRepository: files, symbols and chunks of a snapshot are modelled in `IndexBuild`; of them the lifecycle tables only know whether the chunks a build stored are still there (a build of no accepted files stores none and has them all).
- Idempotency.LifetimeIsStable: expiry happens at arbitrary moments instead of after a time to live.
- RateLimit.WindowAcceptsMinIff: calls whose INCR fails touch no counter and belong to no window; `RateLimitService.Enforce` states their answer.
- RateLimit.AtMostTwiceTheLimit: a window of zero seconds, where EXPIRE deletes the counter at once.
- Row objects: table rows are values in maps, so two references to one row inside a session are not modelled.
- HTTP routes, cookies, CSRF, settings, health probes, migrations, logging, audit rows and the frontend: plumbing.
- Passwords, login counters, access tokens, SHA-256, UUID5 and JWT: foreign calls or single-branch updates.
- Git, the filesystem walk, exclusion rules and workspace removal: I/O; clone and scan enter as outcomes.
- Python `ast` symbols and the regular-expression parsers: a parse result is a parameter; only the fallback is modelled.
- The Ollama client with its retries: an arbitrary function from a batch to vectors.
- The path-prefix and language filters of search and the listing endpoints: plain queries.
- Floating-point rounding, database isolation anomalies and Celery delivery internals.
