# Verification of the recommendation service

A Dafny model of the parts of the backend (and two small parsers of the dashboard) whose correctness
depends on more than one function: ranking mathematics and ranking stages, the embedding pipeline and its
vector store, quota counters, the filter compiler, the CSV and event-stream parsers, the embedding cache,
Stripe webhooks and workspace membership.

`dafny verify dfyconfig.toml` checks the project.

## How the model is laid out

| file | models |
|---|---|
| `Ndcg.dfy` | `ndcg_at_k` |
| `Vectors.dfy`, `Hybrid.dfy` | cosine similarity, personal taste, hybrid fusion |
| `Reranker.dfy`, `LlmReranker.dfy`, `ResultFormatter.dfy` | the ranking stages after retrieval |
| `QueryEngine.dfy`, `TextQueries.dfy` | the single-query path and the batched path; what a query returns |
| `FilterBuilder.dfy`, `QueryUnderstanding.dfy` | API filters, their compilation, and the model's answer |
| `Embedder.dfy` | the embedding cache |
| `Items.dfy`, `Claims.dfy` | item rows; claiming by any number of workers at once |
| `VectorStore.dfy`, `Embedding.dfy`, `Batches.dfy`, `Pipeline.dfy` | the embedding pipeline of one tenant |
| `Worker.dfy` | a worker's chunk over several tenants |
| `ItemChanges.dfy`, `ItemService.dfy`, `TenantIndex.dfy` | upload, rebuild, deletion; runs of everything |
| `Counters.dfy` | the Redis quota protocols |
| `Webhooks.dfy` | Stripe subscription sync |
| `Membership.dfy` | workspaces, members, invitations |
| `Csv.dfy`, `EventStream.dfy` | the dashboard's CSV (RFC 4180 section 2) and Server-Sent Events (WHATWG HTML section 9.2.6) |
| `Dicts.dfy`, `Matches.dfy`, `Sorting.dfy`, `Sequences.dfy`, `Arithmetic.dfy` | insertion-ordered dictionaries, match records, stable sorting, prefixes, concatenation and vectors, products of reals |

Floats are exact reals; `sqrt`, `log2`, `log1p`, rounding, case folding and JSON encoding are parameters
constrained only by what makes them what they are. OpenAI, Pinecone's search, Stripe and the SQL ranking are
functions or answers given as arguments. Code that updates state is a class or a method with the source's
loops, proved equal to a function of the inputs; the properties are lemmas about that function.

Four properties do not hold as one might first state them, and are given with their exact condition:

- A batch reports `personalized` as the single path does exactly when the query is cached, the user has no
  history, or a taste can be made of it (`QueryEngine.SameLabel`, in `QueryEngine.RecommendBatch`): on a miss
  the batch looks at the taste and the single path at the history. `QueryEngine.LabelsDiffer` shows a user for
  whom they differ.
- A DONE item can be without its vector: a deletion can fail after some of its requests went through. For any
  state and ids, that is possible exactly when an id before the last request of 1000 names a DONE item that still
  has its vector (`TenantIndex.TakesExactlyBeforeLast`); for given answers of the store,
  `TenantIndex.TakesExactlyWhen` says it from them. Over a run, every DONE item has its vector all along exactly
  when the answers of no deletion are such (`TenantIndex.StoredUnlessHarmed`).
- A settled demo counter can exceed its seed plus what was admitted: a request counted against its demo caps and
  then refused by the monthly limit stays counted (app/services/workspace_limits.py:85-153). The two agree
  exactly when there is no such request at the key (`Counters.CountersSettle`);
  `Counters.MonthlyRefusalKeepsCaps` shows a run where there is one. The limits hold either way.
- `to_filters` promises a note for each condition dropped (app/services/recommendation/query_understanding.py:163-167).
  A text condition with no text, or with blank ones alone, is dropped without one, and exactly such a one
  (`QueryUnderstanding.DroppedIsNoted`; `QueryUnderstanding.NoTextIsSilent` is one).

## Model

| member | source | states |
|---|---|---|
| `Ndcg.NdcgBounds` | app/services/evaluation/metrics.py:27-37 | for distinct results, any grades and any k: NDCG is in [0, 1], and when something is worth finding it is 1 exactly when the top-k grades, padded with zeros, are the ideal descending ones |
| `Ndcg.SwapRaisesNdcg` | app/services/evaluation/metrics.py:27-37 | moving a better-graded result up one place never lowers NDCG, and raises it strictly when the upper place is within the top k and something is worth finding |
| `Ndcg.DominatedDcg` | app/services/evaluation/metrics.py:31-32 | the rearrangement inequality under a decreasing positive discount: a list whose prefix gains never exceed another's has no greater DCG, and an equal one only if the lists are equal |
| `Ndcg.TopTotalsDominate` | app/services/evaluation/metrics.py:34-36 | grades drawn from a multiset total at most as much as the same number of its largest |
| `Ndcg.GradesDrawnFromGoldenSet` | app/services/evaluation/metrics.py:34-37 | the grades of distinct results, zeros apart, are drawn from the golden set without repetition |
| `Ndcg.DcgZero` | app/services/evaluation/metrics.py:34-37 | the guard against an ideal of 0 fires exactly when no grade is positive |
| `Ndcg.OneRelevant` | app/services/evaluation/metrics.py:27-37 | with one relevant item, NDCG times the logarithm of its rank plus one is log2(2): 1 at the first rank, half at the third; 0 outside the top k |
| `Ndcg.GainDoubles` | app/services/evaluation/metrics.py:31-32 | grades 0, 1, 2, 3 gain 0, 1, 3, 7: each grade doubles the gain and adds one |
| `Vectors.CauchySchwarz` | app/services/recommendation/hybrid.py:24-27 | the squared dot product is at most the product of the squared lengths |
| `Vectors.CosineBounds` | app/services/recommendation/hybrid.py:24-27 | cosine is in [-1, 1] for all vectors of equal length, zero vectors included |
| `Vectors.CosineIgnoresLength` | app/services/recommendation/hybrid.py:24-27 | normalising either side or both leaves the cosine unchanged |
| `Vectors.CosineIs` | app/services/recommendation/hybrid.py:24-27 | cosine has the sign of the dot product |
| `Vectors.CosineOfSelf` | app/services/recommendation/hybrid.py:24-27 | a vector that is not zero has cosine 1 with itself |
| `Vectors.NormalizeUnit` | app/services/recommendation/personalization.py:31-33 | a vector with a non-zero entry becomes a unit vector along itself; a zero vector stays |
| `Vectors.ApplyLeans` | app/services/recommendation/personalization.py:48-52 | the leaned query is a unit vector unless the blend is zero, and its dot product with any item is one positive factor times (1 - w)(unit query . item) + w(taste . item) |
| `Vectors.LeaningOrder` | app/services/recommendation/personalization.py:48-52 | the leaned query orders any two items as that weighted sum does |
| `Vectors.TasteFollowsLikes` | app/services/recommendation/personalization.py:41-46 | a taste has unit length exactly when the liked vectors do not cancel out, and orders items by their total similarity to the liked ones |
| `Vectors.LeaningIs` | app/services/recommendation/personalization.py:31-52 | a query leans by what of an item lies along its own vector and along the sum of the liked vectors, in the taste's proportion, whatever their lengths |
| `Hybrid.Fuse` | app/services/recommendation/hybrid.py:37-65 | the merging, boosting and sorting loop computes the fused list that the theorems below are about |
| `Hybrid.MergedContains` | app/services/recommendation/hybrid.py:30-54 | every vector match and every keyword hit whose vector still exists is merged once, with its true similarity |
| `Hybrid.KeywordOnlyIdsComplete` | app/services/recommendation/hybrid.py:30-34 | each keyword hit is a vector match or among the ids to fetch |
| `Hybrid.BoostIs` | app/services/recommendation/hybrid.py:55-62 | an item's boost is the score of the last hit naming it over the largest score; none without a hit or when no hit scores above 0 |
| `Hybrid.BoostInUnit` | app/services/recommendation/hybrid.py:46-62 | with scores that are not negative a boost lies between 0 and 1 |
| `Hybrid.TopKHoldsLargest` | app/services/recommendation/hybrid.py:64-65 | when k candidates score at least c, so do all of the first k |
| `Hybrid.FusionLosesNothing` | app/services/recommendation/hybrid.py:37-65 | fusing a true top-k by similarity with a keyword list gives min(k, N) distinct catalogue items, best first, and no item left out has a greater similarity plus weighted boost than any item in it |
| `Hybrid.FusedIsSourced` | app/services/recommendation/hybrid.py:37-65 | every fused match is a vector match with its fused score, or carries the external id and metadata of the first keyword hit naming it |
| `Reranker.Rerank` | app/services/recommendation/reranker.py:91-117 | the scoring and stable sort compute the re-ranked list the theorems below are about |
| `Reranker.FeedbackIsZeroSum` | app/services/recommendation/reranker.py:63-84 | over a workspace's items, the lifts of any signal, each weighted by impressions + 20, sum to exactly 0 |
| `Reranker.LiftBounds` | app/services/recommendation/reranker.py:125-129 | a lift is within n/(n + 20) of zero, and positive exactly when the item does better than the average |
| `Reranker.SmoothingGap` | app/services/recommendation/item_stats.py:50-54 | a smoothed rate differs from the prior by the excess of successes over trials + strength |
| `Reranker.AverageInUnit` | app/services/recommendation/reranker.py:68-84 | each workspace average is in [0, 1] |
| `Reranker.AdjustmentBounds` | app/services/recommendation/reranker.py:120-141 | an adjustment lies between -(engagement + conversion + negative) and that sum plus popularity |
| `Reranker.AdjustmentIs` | app/services/recommendation/reranker.py:120-141 | the adjustment, its popularity part apart, times (impressions + 20) is each signal's capped successes beyond the average share times its own weight: engagement and conversion added, negatives subtracted |
| `Reranker.PopularityRises` | app/services/recommendation/reranker.py:120-141 | popularity rises strictly from 0 for no impressions to 1 for the most shown item |
| `Reranker.AdjustmentFollowsFeedback` | app/services/recommendation/reranker.py:120-141 | other things equal, more clicks, positives or conversions never lower an item and more negatives never raise it, strictly so for a signal with a weight until it is capped |
| `Reranker.RerankFollowsFeedback` | app/services/recommendation/reranker.py:91-117 | of two matches equal for the search and shown equally often, the one that did better is placed first, and one that did no worse never scores less |
| `Reranker.RerankKeepsGaps` | app/services/recommendation/reranker.py:91-141 | an item ahead by more than 2(engagement + conversion + negative) + popularity in retrieval score stays ahead |
| `LlmReranker.ParseVerdicts` | app/services/recommendation/llm_reranker.py:122-132 | the parsing loop computes the verdicts the next row describes |
| `LlmReranker.VerdictsAreFirst` | app/services/recommendation/llm_reranker.py:122-132 | a candidate is judged exactly when its number is mentioned, by the first entry that does, its score clamped to 0..10; unknown numbers and repetitions change nothing |
| `LlmReranker.ByKeyFollowsNumber` | app/services/recommendation/llm_reranker.py:185-188 | a match id gets the verdict of its own candidate number |
| `LlmReranker.ReorderMatches` | app/services/recommendation/llm_reranker.py:217-229 | the annotating loop and sort compute the reordering of the next row |
| `LlmReranker.ReorderIsStable` | app/services/recommendation/llm_reranker.py:217-229 | the result permutes the annotated input: judged matches first by descending score, ties and unjudged ones in the order they had |
| `LlmReranker.LlmStage` | app/services/recommendation/llm_reranker.py:159-191 | for every answer the stage is the stable sort of its input with each candidate judged by the first entry naming it and every other match unjudged; on failure it is the input; the fallback reported is "error" or "not_configured" exactly then |
| `ResultFormatter.FormatResults` | app/services/recommendation/result_formatter.py:22-59 | the formatting loop lists the ordered matches with ranks 1..n |
| `ResultFormatter.FormattedShows` | app/services/recommendation/result_formatter.py:22-58 | each ordered match is shown at its rank with its external id, else its id, its rounded similarity, exactly its filter fields, and the reason given |
| `ResultFormatter.OrderedIs` | app/services/recommendation/result_formatter.py:33-41 | for any matches: all of them, by position when every one has one, else by descending ranking score |
| `ResultFormatter.FormatKeepsLlmOrder` | app/services/recommendation/query_engine.py:533-542 | after the LLM stage and the cut to top_k the formatter keeps the stage's order |
| `ResultFormatter.FormatKeepsReranked` | app/services/recommendation/result_formatter.py:33-58 | the formatter keeps the order of re-ranked lists, cut anywhere |
| `ResultFormatter.FormatKeepsFused` | app/services/recommendation/result_formatter.py:33-58 | the formatter keeps the order of fused lists, cut anywhere |
| `ResultFormatter.FormatKeepsSimilarity` | app/services/recommendation/result_formatter.py:33-58 | the formatter keeps the order of a list by descending similarity |
| `QueryEngine.BuildFilters` | app/services/recommendation/query_engine.py:335-344 | the batch is refused exactly when one of its queries' filters is, and else each query gets its own compiled filter |
| `QueryEngine.Lookup` | app/services/recommendation/query_engine.py:348-368 | hits are exactly the cached queries, with their cached results; misses are the others |
| `QueryEngine.RankOne` | app/services/recommendation/query_engine.py:409-424 | one pass of the batch loop is the single path's `_ranked_search` |
| `QueryEngine.RankMisses` | app/services/recommendation/query_engine.py:375-424 | every miss ends with the list `_ranked_search` gives its query |
| `QueryEngine.LlmRerankMany` | app/services/recommendation/query_engine.py:554-589 | reading the item texts of all queries at once gives each query the judgement it would get alone |
| `QueryEngine.SplitTokens` | app/services/recommendation/query_engine.py:406-408 | the misses' token shares sum to the tokens of the one call and differ by at most 1 |
| `QueryEngine.Compute` | app/services/recommendation/query_engine.py:375-433 | every miss gets exactly the results of the single path |
| `QueryEngine.RecommendBatch` | app/services/recommendation/query_engine.py:326-449 | for every list of queries, settings, taste and feedback state, each query gets the results, cache key and hit status `recommend_by_text` gives it, on every branch, and the same `personalized` exactly under a condition known before the call; token shares add up |
| `QueryEngine.LabelsDiffer` | app/services/recommendation/query_engine.py:326-449 | for a user whose liked items have no vectors and an empty cache that condition fails, so the two paths report `personalized` differently on every query |
| `TextQueries.SearchesTowardTaste` | app/services/recommendation/query_engine.py:453-648 | a query depends on vector search at one vector and one count only: the text's own vector or, for a user with a taste, one of unit length or zero that orders any two items by (1 - w) of what lies along the text and w of what lies along the sum of the liked vectors; the count is what is kept, or min(4 times that, 200) where feedback counts |
| `TextQueries.ControlIgnoresSettings` | app/services/recommendation/query_engine.py:548-620 | in the control arm neither user, weights, personalization, keyword, LLM settings, likes, feedback nor hits change the results |
| `TextQueries.AtMostTopK` | app/services/recommendation/query_engine.py:453-546 | answered exactly when the filters compile; a miss gives at most `top_k` results and a hit those cached |
| `TextQueries.SameKeySameResults` | app/services/recommendation/query_engine.py:500-517 | queries that share a cache key have the same results |
| `TextQueries.AnonymousEntry` | app/services/recommendation/query_engine.py:474-476 | a user shares the anonymous entry exactly when no history counts |
| `TextQueries.RecommendKeepsCacheTrue` | app/services/recommendation/query_engine.py:500-546 | while every cached entry is what a search would give, each query answers that, cached or not, and storing its answer keeps it so |
| `TextQueries.TextQueryAnswers` | app/services/recommendation/query_engine.py:453-664 | against an exact vector store a query returns: of all stored items the best fits (similarity to the leaned vector plus weighted keyword boost), sorted by fit and feedback adjustment where feedback counts, stably sorted by the model's verdicts on the first of them where it reads any, and of these the first `top_k`, each shown at its rank |
| `FilterBuilder.OperatorsLoop` | app/services/recommendation/filter_builder.py:68-92 | the operator loop computes the checked condition, refusing an empty range |
| `FilterBuilder.BuildPineconeFilter` | app/services/recommendation/filter_builder.py:33-57 | the loop collects every field's error, or every field's condition |
| `FilterBuilder.ErrorsEmpty` | app/services/recommendation/filter_builder.py:33-57 | filters are accepted exactly when each field is allowed and its value converts |
| `FilterBuilder.AcceptedIsWellFormed` | app/services/recommendation/filter_builder.py:59-100 | a field's filter converts exactly when it is a scalar, a non-empty list of scalars, or a non-empty operator object whose operators are known and have operands of their kind, with no counting lower bound above a counting upper bound |
| `FilterBuilder.BuildAccepts` | app/services/recommendation/filter_builder.py:33-57 | filters are accepted exactly when every field is a filter field and its filter well-formed |
| `FilterBuilder.ParseOpIs` | app/services/recommendation/filter_builder.py:68-76 | the operators are eq, ne, in, nin, gt, gte, lt and lte, with or without a dollar sign |
| `FilterBuilder.CheckIs` | app/services/recommendation/filter_builder.py:114-133 | eq and in pass a value that is, or is a list holding, an operand; ne and nin exactly the others; a range passes exactly numbers on its side of the bound |
| `FilterBuilder.BuildPreservesMeaning` | app/services/recommendation/filter_builder.py:103-133 | an item passes `matches_filter` of the compiled filter exactly when each field satisfies what was written for it, the last of repeated operators counting |
| `QueryUnderstanding.ToFiltersLoop` | app/services/recommendation/query_understanding.py:163-204 | the loop over the answer's conditions computes the filters and notes the theorems below are about |
| `QueryUnderstanding.MergeJoins` | app/services/recommendation/query_understanding.py:207-220 | merging a compatible condition adds it to its field and drops nothing |
| `QueryUnderstanding.ToFiltersRepresents` | app/services/recommendation/query_understanding.py:163-220 | the dictionary holds exactly the conditions kept, merged ranges included |
| `QueryUnderstanding.FilterMeansAnswer` | app/services/recommendation/query_understanding.py:163-220 | when accepted, the compiled filter passes exactly the items that meet what every kept condition of the answer demands: for text, carrying a catalogue value (the last of its case-folding) that one of the stripped texts names, or for ne and nin none; for numbers, the comparison written |
| `QueryUnderstanding.ConvertDemands` | app/services/recommendation/query_understanding.py:163-204 | one condition's filter passes exactly the values that condition demands, said of the raw condition |
| `QueryUnderstanding.ConvertIsAsked` | app/services/recommendation/query_understanding.py:163-204 | a condition becomes a filter exactly when its field is profiled, its operator fits the field's kind, and it has a number, or a text naming a value |
| `QueryUnderstanding.FirstIsKept` | app/services/recommendation/query_understanding.py:163-220 | a supported condition is kept when it is its field's first, or a range by an operator no earlier supported condition of the field has |
| `QueryUnderstanding.KeptIsRaw` | app/services/recommendation/query_understanding.py:163-220 | only supported conditions of the answer are kept, and two of one field are ranges of numbers by different operators |
| `QueryUnderstanding.DroppedIsNoted` | app/services/recommendation/query_understanding.py:163-220 | a condition that is not kept leaves a note exactly unless it is a text condition with no text, or blank ones alone |
| `QueryUnderstanding.NoTextIsSilent` | app/services/recommendation/query_understanding.py:189-199 | such a condition: it is dropped without a note |
| `QueryUnderstanding.RefusedOnlyWhenEmpty` | app/services/recommendation/query_understanding.py:303-313 | with profile fields that are filter fields, the filters are refused exactly when a kept lower bound exceeds a kept upper bound of the same field |
| `QueryUnderstanding.RefusedMatchesNothing` | app/services/recommendation/query_understanding.py:303-313 | conditions refused for that reason match no item |
| `QueryUnderstanding.InterpretIsAccepted` | app/services/recommendation/query_understanding.py:274-313 | `interpret` always returns filters that compile |
| `QueryUnderstanding.NothingInvented` | app/services/recommendation/query_understanding.py:163-204 | every kept condition is on a profiled field, and every text in it is a value of the catalogue where the catalogue lists any |
| `Embedder.RequestInOrder` | app/services/embedding/openai_embedder.py:174 | whatever order the API answers in, sorting by index puts each text's vector in its place |
| `Embedder.OpenAIEmbedder.EmbedUncached` | app/services/embedding/openai_embedder.py:127-130 | the texts are requested in order, each once, in chunks no longer than allowed; all of them unless a request fails |
| `Embedder.OpenAIEmbedder.EmbedBatch` | app/services/embedding/openai_embedder.py:109-133 | with a valid cache the result is the embedding function mapped over the truncated texts; each distinct uncached text is requested exactly once; the cache stays valid and is untouched on failure |
| `Embedder.StoredIsValid` | app/services/embedding/openai_embedder.py:193-202 | storing the new vectors keeps every cache entry right and loses none |
| `Embedder.SecondBatchIsFree` | app/services/embedding/openai_embedder.py:118-131 | once a batch went through, asking for it again requests nothing |
| `Claims.HandedOutOncePerEntry` | app/services/embedding/pipeline.py:276-335 | in every interleaving of claimers, releases, stale releases, uploads, rebuilds, finishers and deletions, each time an item entered PENDING it was handed out once, or withdrawn, or it is PENDING still: the counts are equal |
| `Claims.WithdrawnExactly` | app/services/embedding/pipeline.py:276-335 | exactly an upload that embeds at once, a finisher that settles it, or its deletion withdraws an item |
| `Claims.ClaimTakesStillPending` | app/services/embedding/pipeline.py:276-306 | whatever others do meanwhile, a claim hands out exactly those it had selected that are still PENDING, and they become PROCESSING |
| `Claims.ReclaimNeedsEntry` | app/services/embedding/pipeline.py:276-306 | between two claims that return the same item, it entered PENDING |
| `Claims.EntryNeedsRelease` | app/services/embedding/pipeline.py:309-335 | exactly an upload or rebuild, a release, a stale release past its cutoff, or a finisher handing back brings an item into PENDING |
| `Claims.ClaimsAreDisjoint` | app/services/embedding/pipeline.py:276-306 | claims with no release between them return disjoint sets, whatever the workers had selected before |
| `VectorStore.PineconeNamespace.UpsertBatch` | app/services/embedding/pinecone_service.py:153-181 | the chunk loop stores each accepted chunk and reports each failed one |
| `VectorStore.UpsertChunksIs` | app/services/embedding/pinecone_service.py:153-181 | each entry is stored as given or reported failed with its vector as it was; no other vector changes |
| `VectorStore.FailsByChunk` | app/services/embedding/pinecone_service.py:153-181 | an entry is reported failed exactly when the request of its chunk of 100 is refused |
| `VectorStore.PineconeNamespace.DeleteItems` | app/services/embedding/pinecone_service.py:187-208 | the chunk loop deletes until a request fails or the namespace is not found |
| `VectorStore.DeletedIs` | app/services/embedding/pinecone_service.py:187-208 | what is deleted is a prefix of the ids, all of them when it answers True, none when unavailable, whole requests of 1000 when it answers False |
| `Pipeline.EmbeddingPipeline.EmbedItems` | app/services/embedding/pipeline.py:243-261 | one request, and after a rejected input one per item until the service goes down; rejected items are FAILED |
| `Pipeline.EmbeddingPipeline.EmbedAndStoreItems` | app/services/embedding/pipeline.py:202-241 | the embed-and-store steps compute the table, namespace and failure of the specification function |
| `Pipeline.EmbeddingPipeline.ProcessItems` | app/services/embedding/pipeline.py:110-141 | the same, with unsettled items handed back to PENDING after a failure upstream |
| `Embedding.EmbedAccounts` | app/services/embedding/pipeline.py:243-261 | each item gets a vector the service answered for its own text, or is rejected because its own text, asked alone, is, unless the service goes down |
| `Embedding.ProcessAt` | app/services/embedding/pipeline.py:110-141 | each item of a call ends DONE with a vector for its own text and its sanitised metadata stored, or FAILED because it has no text, its text asked alone is rejected, or a chunk was refused, or handed back; unless DONE its vector is as it was; all other rows and vectors are untouched |
| `Embedding.BadTextFailsAlone` | app/services/embedding/pipeline.py:243-261 | when nothing is down, every upsert goes through and a request is rejected exactly when one of its texts is bad, an item ends DONE with a vector of its own text stored exactly when its text is neither empty nor bad, and else FAILED with that reason |
| `Embedding.JointRequestServesAll` | app/services/embedding/pipeline.py:243-253 | when the joint request goes through, each item gets the vector at its own place |
| `Embedding.ProcessIs` | app/services/embedding/pipeline.py:110-141 | the same for all items of a call at once: the relation the rows below start from |
| `Embedding.ProcessSettles` | app/services/embedding/pipeline.py:110-141 | PROCESSING items all end DONE or FAILED or, after a failure upstream, PENDING or FAILED |
| `Embedding.ProcessKeepsLinked` | app/services/embedding/pipeline.py:202-241 | a call leaves each vector with a live row that names it |
| `Embedding.HealthyNeverRaises` | app/services/embedding/pipeline.py:110-141 | a call fails only when a service is down |
| `Pipeline.EmbeddingPipeline.ClaimItems` | app/services/embedding/pipeline.py:276-306 | the oldest waiting items, at most `limit`, become PROCESSING and are returned |
| `Pipeline.EmbeddingPipeline.RefreshBatch` | app/services/embedding/pipeline.py:338-361 | an incomplete record becomes its recount: `processed` counts the DONE items and `failed` the FAILED; complete, DONE or PARTIAL_FAIL, and stamped exactly when none is outstanding, else PROCESSING once some item has left PENDING; a complete record and all others stay |
| `Batches.RefreshedIs` | app/services/embedding/pipeline.py:338-361 | a recount of an incomplete record: `processed` counts the DONE items and `failed` the FAILED; complete and stamped exactly when no item is outstanding, DONE exactly when none failed, PROCESSING when some item has left PENDING, unchanged while all wait |
| `Batches.RefreshTwice` | app/services/embedding/pipeline.py:155-166 | refreshing after each chunk and again at the end leaves what the last refresh alone would have |
| `Pipeline.EmbeddingPipeline.ProcessBatch` | app/services/embedding/pipeline.py:143-172 | run alone it terminates, moves only the batch's PENDING items, leaves none waiting unless upstream fails, never pauses when nothing is down, refreshes only this batch, and keeps vectors and rows linked; finishing with no item claimed elsewhere it leaves the batch complete, its counters the numbers of DONE and FAILED items, together its item count, DONE exactly when every item is |
| `Batches.FinishedCompletes` | app/services/embedding/pipeline.py:143-172 | a finished run leaves the batch complete, `processed` its DONE items and `failed` its FAILED ones, together its item count, DONE exactly when every item is |
| `Pipeline.EmbeddingPipeline.ProcessPending` | app/services/embedding/pipeline.py:174-198 | for one tenant, a worker's turn recovers stale items, claims the front of the queue, settles or hands back every claimed item, and refreshes exactly their batches |
| `Worker.Worker.ProcessGroups` | app/services/embedding/pipeline.py:180-192 | over the tenants of a claim: without a failure every claimed item ends DONE or FAILED; when one tenant's call fails, earlier items are DONE or FAILED, its own PENDING or FAILED, and those of tenants not reached PENDING with all else as it was; tenants deleted meanwhile are skipped and other tenants untouched |
| `ItemService.ItemService.UpsertItems` | app/services/item_service.py:43-105 | rows of known ids are updated in place, each new id gets one row, duplicates collapse to the last, the unique constraint holds, and the rows come back in the order sent |
| `ItemChanges.InsertedAllUploads` | app/services/item_service.py:70-90 | inserting the rows one after the other, on conflict updating, is that upload as a whole |
| `ItemChanges.UploadHoldsLastSent` | app/services/item_service.py:43-90 | after an upload each external id sent has one row, holding the data sent last under it, its metadata, the call's batch, status and time; an updated row keeps its age and vector id, a new one starts without |
| `ItemChanges.UploadKeepsOthers` | app/services/item_service.py:43-90 | a row of an id not sent is as it was |
| `ItemService.ItemService.IngestAsync` | app/services/item_service.py:122-126 | the new batch's total is the number of items it then holds |
| `ItemService.ItemService.CreateBatch` | app/services/item_service.py:128-135 | one new record with the given total and nothing counted, complete, and then DONE, exactly when the total is 0; no other record changes |
| `ItemService.ItemService.Rebuild` | app/services/item_service.py:137-152 | every item is queued again in a new batch whose total is their number |
| `ItemService.ItemService.DeleteItem` | app/services/item_service.py:209-220 | the vector goes first and the row only when the vector is gone |
| `ItemService.ItemService.DeleteItems` | app/services/item_service.py:222-243 | exactly the named rows (or all) are deleted, vectors first, none when the store fails; `missing` are the ids naming no row, each once |
| `TenantIndex.RunKeepsAgreement` | app/services/item_service.py:209-243 | over every sequential run of uploads, claims, embedding, releases, rebuilds and deletions, with any failures: each vector belongs to a live row that names it, and each DONE row has its vector with matching metadata unless a deletion that failed part-way took it |
| `TenantIndex.LostOnlyPartWay` | app/services/embedding/pinecone_service.py:187-208 | a vector of a DONE row is lost only in a request that went through before the one that failed, of a deletion of several requests |
| `TenantIndex.SmallDeletionsLoseNothing` | app/services/item_service.py:222-243 | nothing is ever lost while every deletion cut short fits in one request |
| `TenantIndex.TakesExactlyBeforeLast` | app/services/embedding/pinecone_service.py:187-208 | for any rows, vectors and ids, vectors already gone included: some failure takes the vector of a DONE row exactly when an id before the last request of 1000 has a DONE row and a vector |
| `TenantIndex.TakesExactlyWhen` | app/services/embedding/pinecone_service.py:187-208 | for any rows, vectors, ids and answers: the deletion takes the vector of a DONE row and fails exactly when some request is answered with a failure, every request before it goes through without finding the namespace emptied, and an id of those has a DONE row and a vector |
| `TenantIndex.StoredUnlessHarmed` | app/services/item_service.py:222-243 | over every sequential run, each DONE row has its vector with matching metadata in every state exactly when no deletion gets answers that fail it after taking one |
| `Counters.RunKeepsInv` | app/services/workspace_limits.py:85-153 | in every interleaving of atomic Redis commands each counter is its seed plus what the requests in flight and those that passed its check hold, and what passed fits under the limit |
| `Counters.LimitNeverExceeded` | app/services/workspace_limits.py:85-153 | in every interleaving, the seed plus what passed the check of a key (monthly, session, day or item quota), and so plus what was admitted, is within its limit |
| `Counters.CountersSettle` | app/services/workspace_limits.py:85-153 | whenever no request is in flight, each counter is its seed plus what passed its check, and that is its seed plus what was admitted exactly when no request was counted at the key and then refused by the monthly limit |
| `Counters.RequestsSettle` | app/services/workspace_limits.py:85-153 | in every interleaving each request is answered within twice the keys it counts and five commands of its own |
| `Counters.MonthlyRefusalKeepsCaps` | app/services/workspace_limits.py:85-153 | such a run: nobody admitted or in flight, and a session counted |
| `Counters.NoFalseRefusal` | app/services/workspace_limits.py:85-153 | with nobody else in flight, a request is refused at a key exactly when the seed, what passed there and its own count exceed the limit |
| `Counters.Redis.ConsumeItems` | app/middleware/rate_limit.py:89-112 | counts the items, or refuses leaving every counter as it was, exactly when they do not fit |
| `Counters.Redis.ConsumeDemo` | app/services/workspace_limits.py:117-153 | counts against both caps, or refuses leaving every counter as it was, exactly when one cap does not fit |
| `Counters.Redis.ConsumeMonth` | app/services/workspace_limits.py:94-116 | a missing counter starts from the logs; then counts or refuses without counting |
| `Csv.DetectDelimiter` | dashboard/lib/csv.ts:11-23 | the first of the delimiters with the greatest count in the first line |
| `Csv.CommaDetected` | dashboard/lib/csv.ts:11-23 | the comma is detected exactly when no other delimiter outnumbers it there |
| `Csv.ParseCsv` | dashboard/lib/csv.ts:25-69 | the scanning loop computes the parse the theorems below are about |
| `Csv.RunCell` | dashboard/lib/csv.ts:71-73 | reading a written cell gives back exactly its value, whatever it contains |
| `Csv.RunRows` | dashboard/lib/csv.ts:66-78 | reading written rows back gives the non-blank ones, in order |
| `Csv.RoundTrip` | dashboard/lib/csv.ts:25-78 | for all cell contents, parsing what was written gives back headers, rows and the comma exactly when the headers are trimmed, no row is blank and commas win the first line, or the table is empty |
| `Csv.IdentifierHeadersRoundTrip` | dashboard/lib/csv.ts:25-78 | identifier-like headers and non-blank rows always come back |
| `Csv.BomIgnored` | dashboard/lib/csv.ts:25-27 | a leading byte order mark changes nothing |
| `EventStream.ParseEvents` | dashboard/lib/hooks/ask.ts:38-53 | the parsing loops compute the events and the unfinished rest |
| `EventStream.ParseBlockIs` | dashboard/lib/hooks/ask.ts:41-51 | a block is an event exactly when it has a data line; the lines of its data are the payloads of all of these in order, its name that of its last event line, else "message" |
| `EventStream.ChunkingInvisible` | dashboard/lib/hooks/ask.ts:38-53 | however a text is split into chunks, feeding them with the carried rest gives the events and rest of the whole |
| `EventStream.PrefixParses` | app/api/v1/recommend.py:347-349 | any prefix of encoded events parses to the events wholly inside it, and the whole to exactly those sent with an empty rest |
| `EventStream.ReadLoop` | dashboard/lib/hooks/ask.ts:72-118 | the read loop, to the end of the stream or a rejected read, computes the state the theorems below are about |
| `EventStream.ReadWhole` | dashboard/lib/hooks/ask.ts:91-118 | the state after reading depends on the text and on how the stream ended, not on its chunks |
| `EventStream.UnreadableIsAnError` | dashboard/lib/hooks/ask.ts:88-124 | when some event's data is not JSON the page ends in an error, however the text is split |
| `EventStream.LastWordSettles` | dashboard/lib/hooks/ask.ts:94-110 | after an "error" event the page is done and marked failed, after a "done" it is done and marked as it was |
| `EventStream.FoldRun` | app/api/v1/recommend.py:379-400 | folding the first m messages of a server run and closing gives, for every m and either ending, the page the next row describes |
| `EventStream.StreamEndsDone` | dashboard/lib/hooks/ask.ts:72-118 | any server run, whole or cut anywhere, in any chunks: after a clean end the page is "done" exactly when its results arrived whole, with the summary pieces that did, marked failed exactly when "done" did not arrive, and otherwise "searching"; after a rejected read it shows an error beside whatever arrived whole |
| `Webhooks.SubscriptionSync.SyncSubscription` | app/services/billing/webhooks.py:120-131 | a workspace is found exactly when the subscription is for the Pro plan and its label or customer names one; it then mirrors the subscription and keeps its Stripe customer if it has one; no other changes |
| `Webhooks.SubscriptionSync.HandleEvent` | app/services/billing/webhooks.py:93-106 | a recorded or failing event changes nothing; any other is recorded once with its outcome, and leaves the workspace of its subscription, if any, mirroring it; a workspace that owns a subscription and shows a stale copy of it keeps having an unrecorded event about it |
| `Webhooks.TenantForIs` | app/services/billing/webhooks.py:152-167 | a subscription belongs to the workspace its label names if there is one, else to one with its customer if there is one |
| `Webhooks.PeriodEndIs` | app/services/billing/webhooks.py:73-86 | the period ends with the last of the items that have an end, else when the subscription says, else never |
| `Webhooks.NextKeepsInv` | app/services/billing/webhooks.py:73-131 | a workspace whose copy is stale always has an unrecorded event about its subscription |
| `Webhooks.WebhooksConverge` | app/services/billing/webhooks.py:73-131 | for any duplication, reordering and failed deliveries, once every emitted event of a subscription that stays ours with one workspace is recorded, the workspace mirrors Stripe's current subscription |
| `Webhooks.LabelledConverge` | app/services/billing/webhooks.py:152-167 | the same when every subscription is labelled with its workspace, as checkout does, and no other names this one |
| `Webhooks.DeliverAllRecords` | app/services/billing/webhooks.py:93-106 | delivering every emitted event once without failure records them all |
| `Webhooks.RedeliveryIsNoOp` | app/api/v1/billing.py:197-204 | redelivering a recorded event changes nothing |
| `Membership.Store.CreateTenant` | app/services/tenant_service.py:27-63 | refused exactly when the email is in use, changing nothing; else the new workspace has that email and its one owner; the invariant is kept and no other workspace changes owner |
| `Membership.Store.InviteMember` | app/services/team_service.py:65-91 | refused exactly when a user has the email; else the new invitation is the only pending one to the address in this workspace, and no other invitation changes; the invariant is kept |
| `Membership.Store.RevokeInvitation` | app/services/team_service.py:93-103 | done exactly when this workspace has a pending invitation of that id; then none is left, and no other invitation changes; the invariant is kept |
| `Membership.Store.AcceptInvitation` | app/services/team_service.py:105-141 | done exactly when the invitation is open and no user has its address; then one verified member with its role joins and the invitation is open no more; else nothing changes; the invariant is kept |
| `Membership.Store.MarkVerified` | app/services/account_service.py:145-159 | an active user is verified as of the first time, nobody else changes, and an owner still owns the workspace with email and verification time in step; the invariant is kept |
| `Membership.Store.ChangeMemberRole` | app/services/team_service.py:145-161 | refused exactly for strangers, oneself and the owner, changing nothing; else only that member's role changes; the invariant is kept and ownership does not move |
| `Membership.Store.RemoveMember` | app/services/team_service.py:163-169 | refused exactly for strangers and the owner, changing nothing; else exactly that member goes; the invariant is kept and ownership does not move |
| `Membership.Store.TransferOwnership` | app/services/team_service.py:171-187 | done exactly for a verified active other member after the password check; then that member owns the workspace, its email and verification time theirs, the old owner is ADMIN, nobody else changes; the invariant is kept |
| `Membership.Store.DeleteAccount` | app/services/account_service.py:199-224 | done exactly on the right confirmation and password; then no row of the workspace is left and no row of another is touched; the invariant is kept |
| `Membership.Store.Perform` | app/services/team_service.py:65-187 | performing any operation on the store does what the step of the run theorems does and keeps the invariant |
| `Membership.ApplyKeepsInv` | app/services/team_service.py:65-187 | every operation keeps: one owner a workspace, its email and verification time the owner's, distinct user emails, no OWNER invitation |
| `Membership.RunKeepsInv` | app/services/team_service.py:65-187 | the same over every serial run of register, invite, revoke, accept, verify, change role, remove, transfer and delete |
| `Membership.TenantEmailsDistinct` | app/services/team_service.py:171-187 | two workspaces never share an email, so the unique column never refuses a transfer |
| `Membership.OwnershipMovesByTransfer` | app/services/team_service.py:145-187 | ownership of a surviving workspace moves only by transfer |
| `Sorting.SortStable` | app/services/recommendation/reranker.py:116-117 | elements that tie keep the order they came in |
| `Sorting.SortOfSorted` | app/services/recommendation/result_formatter.py:33-41 | sorting a sorted list again leaves it alone |

## Left out

- Rounding: floats are exact reals, so the last bits of scores are not modelled.
- `recall_at_k` and `reciprocal_rank`: easy beside NDCG. Golden grades are never negative (app/schemas/evaluation.py:15).
- A question given up for a newer one: the page then ignores what its stream still does.
- HTTP routes, schemas, authentication, email, metrics and tracing: their validators appear as preconditions (unique query ids and non-empty texts of a batch, no OWNER role in requests).
- `recommend_by_item_id` and `recommend_by_profile`: variants of the single path.
- Cached results going stale: while likes, feedback and items stay as they are, cached answers are fresh ones (`TextQueries.RecommendKeepsCacheTrue`); between changes and the cache's expiry they are not, and the code does not claim it.
- Caches of the LLM's answers and of field profiles, prices, token accounting and timeouts.
- The JSON text of the LLM's answers: the model starts from its entries.
- Unicode: case folding and stripping are parameters, and strings are sequences of characters, not UTF-16 units.
- Score labels, statistics refresh and the decay of old feedback.
- Redis failures, expiry and lost keys: the code then allows or refuses without counting.
- `sync_customer`: it applies the best of a customer's subscriptions on request, outside the webhook path.
- Overlapping webhook handlers and overlapping membership edits.
- Passwords, API keys, sessions and emailed tokens: their checks are arguments. A workspace's vectors go before its deletion (app/services/account_service.py:217-222), which is not repeated here.
- Metadata cleaning for Pinecone is a function; its JSON rendering of nested values is not modelled. Neither is `search_text`.
- `TextQueries.TextQueryAnswers`: the vector store answers exactly; an approximate index may miss neighbours. Its stages are otherwise as in `QueryEngine`.
- `TextQueries.SameKeySameResults`: a cache key is the values hashed into it, so hash collisions are not modelled.
- `updated_at` written by a finisher; claimed rows are processed in queue order.
- `Pipeline.EmbeddingPipeline.ProcessPending`: claims and recovers one tenant's items; a chunk over several tenants is modelled from the claim on, in `Worker`.
- `Pipeline.EmbeddingPipeline.ClaimItems`: leaves open the order by id among items created at the same moment.
- `VectorStore.PineconeNamespace.UpsertBatch`: takes a failed request to have stored nothing; an upsert that times out after storing would leave a vector beside a FAILED row that does not name it.
- `VectorStore.PineconeNamespace.DeleteItems`: takes a failed request to have deleted nothing, and "not found" to be said only of a namespace without vectors.
- `LlmReranker.ParseVerdicts`: candidate numbers arrive read as numbers, and reasons are not stripped.
- `ResultFormatter.FormatResults`: results carry no score label and no raw item data.
- `Pipeline.EmbeddingPipeline.ProcessBatch`: models a run alone on its batch; with other workers only what `Claims` says holds.
- `Membership.Store.CreateTenant`: a registration that loses a race on the unique email is not modelled, runs being serial.
- `FilterBuilder.BuildPineconeFilter`: error messages are reduced to their kind.
