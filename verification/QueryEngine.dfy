/** Text queries one at a time and in a batch (app/services/recommendation/query_engine.py).
    OpenAI, Pinecone, the database and the result cache are deterministic functions of what they
    are asked, gathered in a World; the A/B draw is part of the request. */
module QueryEngine {
  import opened Dicts
  import opened Vectors
  import opened Matches
  import opened Hybrid
  import opened Reranker
  import opened LlmReranker
  import opened ResultFormatter
  import opened Sequences

  datatype Variant = ControlArm | RerankedArm

  datatype Config = Config(
    weights: Weights, personalization: real, keyword: real, llmRerank: bool, llmCandidates: nat)

  type Filters = map<string, Value>
  type PineconeFilter = map<string, map<string, Value>>

  /** What is hashed into a result-cache key besides the tenant and the query type. */
  datatype Key = Key(
    variant: Variant, config: Config, user: Option<string>, query: string, filter: PineconeFilter, topK: nat)

  datatype World = World(
    dimension: nat,
    buildFilter: Filters -> Option<PineconeFilter>,
    embed: string -> Vec,
    search: (nat, Vec, PineconeFilter) -> seq<Match>,
    keywordSearch: (string, PineconeFilter, nat) -> seq<KeywordMatch>,
    fetchVectors: seq<string> -> map<string, Vec>,
    likedVectors: seq<string> -> seq<Vec>,
    likedItems: string -> seq<string>,
    rows: seq<ItemStats>,
    rawData: map<string, string>,
    hasLlm: bool,
    ask: (string, seq<Candidate>) -> Answer,
    cache: map<Key, seq<Result>>,
    usage: seq<string> -> nat,
    filterFields: set<string>,
    sqrt: real -> real,
    log1p: real -> real,
    round: real -> real)

  /** All stored vectors and embeddings have the index's dimension. */
  ghost predicate ValidWorld(w: World) {
    && IsLog1p(w.log1p)
    && (forall text :: |w.embed(text)| == w.dimension)
    && (forall ids, id :: id in w.fetchVectors(ids) ==> |w.fetchVectors(ids)[id]| == w.dimension)
    && (forall ids :: SameLength(w.likedVectors(ids), w.dimension))
  }

  datatype Request = Request(config: Config, variant: Variant, user: Option<string>, topK: nat)

  datatype BatchQuery = BatchQuery(id: string, query: string, filters: Filters)

  datatype Recommendation = Recommendation(results: seq<Result>, key: Key, hit: bool, personalized: bool)

  // ---- The parts both paths use ----

  function History(w: World, r: Request): seq<string> {
    if r.user.None? || r.user.value == "" || r.variant.ControlArm? || r.config.personalization <= 0.0 then []
    else w.likedItems(r.user.value)
  }

  function TasteOf(w: World, r: Request): (t: Option<Taste>)
    requires ValidWorld(w)
    ensures t.Some? ==> |t.value.vector| == w.dimension
  {
    if History(w, r) == [] then None
    else
      var vectors := w.likedVectors(History(w, r));
      assert SameLength(vectors, w.dimension);
      FromVectors(vectors, r.config.personalization, w.sqrt)
  }

  function KeyOf(w: World, r: Request, query: string, filter: PineconeFilter): Key {
    Key(r.variant, r.config, if History(w, r) == [] then None else r.user, query, filter, r.topK)
  }

  function LlmCandidates(w: World, r: Request): nat {
    if !w.hasLlm || !r.config.llmRerank || r.variant.ControlArm? then 0 else r.config.llmCandidates
  }

  function KeywordWeight(r: Request): real {
    if r.variant.RerankedArm? then r.config.keyword else 0.0
  }

  function Max(a: nat, b: nat): nat {
    if a >= b then a else b
  }

  function Lean(taste: Option<Taste>, vector: Vec, sqrt: real -> real): (v: Vec)
    requires taste.Some? ==> |taste.value.vector| == |vector|
    ensures |v| == |vector|
  {
    match taste case None => vector case Some(t) => Apply(t, vector, sqrt)
  }

  function HybridSearch(w: World, text: string, vector: Vec, ms: seq<Match>, filter: PineconeFilter, k: nat,
                        weight: real): seq<Match>
    requires ValidWorld(w) && |vector| == w.dimension
  {
    var hits := w.keywordSearch(text, filter, k);
    var missing := KeywordOnlyIds(ms, hits);
    var vectors := if missing != [] then w.fetchVectors(missing) else map[];
    Fused(ms, hits, vectors, vector, weight, k, w.sqrt)
  }

  /** The text of each of the `top` matches whose row still exists. */
  function Candidates(top: seq<Match>, raw: map<string, string>): seq<Candidate> {
    if top == [] then []
    else
      (if ExternalId(top[0]) in raw then [Candidate(top[0].id, raw[ExternalId(top[0])])] else [])
      + Candidates(top[1..], raw)
  }

  function RawData(w: World, ms: seq<Match>): map<string, string> {
    var ids := set m | m in ms :: ExternalId(m);
    map id | id in w.rawData && id in ids :: w.rawData[id]
  }

  // ---- One query ----

  function SearchText(w: World, r: Request, text: string, k: nat, filter: PineconeFilter): seq<Match>
    requires ValidWorld(w)
  {
    var vector := Lean(TasteOf(w, r), w.embed(text), w.sqrt);
    var ms := w.search(k, vector, filter);
    if KeywordWeight(r) <= 0.0 then ms else HybridSearch(w, text, vector, ms, filter, k, KeywordWeight(r))
  }

  function RankedSearch(w: World, r: Request, text: string, k: nat, filter: PineconeFilter): seq<Match>
    requires ValidWorld(w)
  {
    if r.variant.ControlArm? then SearchText(w, r, text, k, filter)
    else
      var prior := WorkspaceStatsOf(w.rows);
      if !prior.HasData() then SearchText(w, r, text, k, filter)
      else Reranked(SearchText(w, r, text, CandidateCount(k), filter), k, w.rows, r.config.weights, prior, w.log1p)
  }

  /** `_llm_rerank_many` for one query. */
  function Judge(w: World, text: string, ms: seq<Match>, n: nat): seq<Match> {
    var candidates := Candidates(Take(ms, n), RawData(w, Take(ms, n)));
    WithPositions(LlmRerank(ms, candidates, w.ask(text, candidates)).matches)
  }

  function Search(w: World, r: Request, text: string, filter: PineconeFilter): seq<Result>
    requires ValidWorld(w)
  {
    var n := if text != "" then LlmCandidates(w, r) else 0;
    var ms := RankedSearch(w, r, text, Max(r.topK, n), filter);
    var judged := if n > 0 then Judge(w, text, ms, n) else ms;
    Formatted(Take(judged, r.topK), w.filterFields, w.round)
  }

  /** `recommend_by_text`; None when the filters are refused. */
  function RecommendByText(w: World, r: Request, text: string, filters: Filters): Option<Recommendation>
    requires ValidWorld(w)
  {
    var filter := w.buildFilter(filters);
    if filter.None? then None
    else
      var key := KeyOf(w, r, text, filter.value);
      var personalized := History(w, r) != [];
      if key in w.cache then Some(Recommendation(w.cache[key], key, true, personalized))
      else Some(Recommendation(Search(w, r, text, filter.value), key, false, personalized))
  }

  // ---- A batch ----

  ghost predicate DistinctQueries(queries: seq<BatchQuery>) {
    forall i, j :: 0 <= i < j < |queries| ==> queries[i].id != queries[j].id
  }

  /** `all` holds `want[j]` under the id of each of the first `n` queries. */
  ghost predicate Filled<A>(queries: seq<BatchQuery>, want: seq<A>, n: nat, all: map<string, A>) {
    n <= |queries| == |want| && forall j :: 0 <= j < n ==> queries[j].id in all && all[queries[j].id] == want[j]
  }

  lemma FillOne<A>(queries: seq<BatchQuery>, want: seq<A>, i: nat, all: map<string, A>)
    requires DistinctQueries(queries) && Filled(queries, want, i, all) && i < |queries|
    ensures Filled(queries, want, i + 1, all[queries[i].id := want[i]])
  {
  }

  method BuildFilters(w: World, queries: seq<BatchQuery>) returns (filters: Option<map<string, PineconeFilter>>)
    requires DistinctQueries(queries)
    ensures filters.None? <==> exists i :: 0 <= i < |queries| && w.buildFilter(queries[i].filters).None?
    ensures filters.Some? ==> forall i :: 0 <= i < |queries| ==>
              queries[i].id in filters.value && w.buildFilter(queries[i].filters) == Some(filters.value[queries[i].id])
  {
    var built: map<string, PineconeFilter> := map[];
    for i := 0 to |queries|
      invariant forall j :: 0 <= j < i ==>
        queries[j].id in built && w.buildFilter(queries[j].filters) == Some(built[queries[j].id])
    {
      var filter := w.buildFilter(queries[i].filters);
      if filter.None? { return None; }
      built := built[queries[i].id := filter.value];
    }
    return Some(built);
  }

  /** The loop body of the batch for one miss, given its vector and vector matches. */
  method RankOne(w: World, r: Request, text: string, vector: Vec, found: seq<Match>, filter: PineconeFilter,
                 prior: Option<WorkspaceStats>, keepK: nat, fetchK: nat) returns (ms: seq<Match>)
    requires ValidWorld(w) && vector == Lean(TasteOf(w, r), w.embed(text), w.sqrt)
    requires prior == if r.variant.RerankedArm? then Some(WorkspaceStatsOf(w.rows)) else None
    requires fetchK == if prior.Some? && prior.value.HasData() then CandidateCount(keepK) else keepK
    requires found == w.search(fetchK, vector, filter)
    ensures ms == RankedSearch(w, r, text, keepK, filter)
  {
    ms := found;
    var keyword := KeywordWeight(r);
    if keyword > 0.0 {
      ms := HybridSearch(w, text, vector, ms, filter, fetchK, keyword);
    }
    assert ms == SearchText(w, r, text, fetchK, filter);
    if prior.Some? && prior.value.HasData() {
      ms := Reranked(ms, keepK, w.rows, r.config.weights, prior.value, w.log1p);
    }
  }

  ghost function AllRanked(w: World, r: Request, misses: seq<BatchQuery>, filters: map<string, PineconeFilter>,
                           k: nat): seq<seq<Match>>
    requires ValidWorld(w) && forall i :: 0 <= i < |misses| ==> misses[i].id in filters
  {
    seq(|misses|, i requires 0 <= i < |misses| => RankedSearch(w, r, misses[i].query, k, filters[misses[i].id]))
  }

  /** Embeds all misses at once, searches, fuses and re-ranks each. */
  method RankMisses(w: World, r: Request, misses: seq<BatchQuery>, filters: map<string, PineconeFilter>,
                    taste: Option<Taste>)
    returns (ranked: map<string, seq<Match>>)
    requires ValidWorld(w) && DistinctQueries(misses) && taste == TasteOf(w, r)
    requires forall i :: 0 <= i < |misses| ==> misses[i].id in filters
    ensures Filled(misses, AllRanked(w, r, misses, filters, Max(r.topK, LlmCandidates(w, r))), |misses|, ranked)
  {
    var prior := if r.variant.RerankedArm? then Some(WorkspaceStatsOf(w.rows)) else None;
    var rerank := prior.Some? && prior.value.HasData();
    var keepK := Max(r.topK, LlmCandidates(w, r));
    var fetchK := if rerank then CandidateCount(keepK) else keepK;
    var vectors := seq(|misses|, i requires 0 <= i < |misses| => w.embed(misses[i].query));
    if taste.Some? {
      vectors := seq(|misses|, i requires 0 <= i < |misses| => Lean(taste, w.embed(misses[i].query), w.sqrt));
    }
    ghost var want := AllRanked(w, r, misses, filters, keepK);
    ranked := map[];
    for i := 0 to |misses|
      invariant Filled(misses, want, i, ranked)
    {
      FillOne(misses, want, i, ranked);
      var query := misses[i];
      var found := w.search(fetchK, vectors[i], filters[query.id]);
      var ms := RankOne(w, r, query.query, vectors[i], found, filters[query.id], prior, keepK, fetchK);
      ranked := ranked[query.id := ms];
    }
  }

  lemma {:induction false} CandidatesOfOwnRows(top: seq<Match>, raw: map<string, string>, raw': map<string, string>)
    requires forall i :: 0 <= i < |top| ==>
               var id := ExternalId(top[i]); (id in raw <==> id in raw') && (id in raw ==> raw[id] == raw'[id])
    ensures Candidates(top, raw) == Candidates(top, raw')
  {
    if top != [] {
      assert forall i :: 0 <= i < |top| - 1 ==> top[1..][i] == top[i + 1];
      CandidatesOfOwnRows(top[1..], raw, raw');
    }
  }

  ghost function AllJudgements(w: World, queries: seq<BatchQuery>, ranked: map<string, seq<Match>>,
                               n: nat): seq<seq<Match>>
    requires forall i :: 0 <= i < |queries| ==> queries[i].id in ranked
  {
    seq(|queries|, i requires 0 <= i < |queries| => Judge(w, queries[i].query, ranked[queries[i].id], n))
  }

  /** The matches whose texts are read, for all queries at once. */
  method AllTop(queries: seq<BatchQuery>, ranked: map<string, seq<Match>>, n: nat) returns (everything: seq<Match>)
    requires forall i :: 0 <= i < |queries| ==> queries[i].id in ranked
    ensures forall i, m :: 0 <= i < |queries| && m in Take(ranked[queries[i].id], n) ==> m in everything
  {
    everything := [];
    for i := 0 to |queries|
      invariant forall j, m :: 0 <= j < i && m in Take(ranked[queries[j].id], n) ==> m in everything
    {
      everything := everything + Take(ranked[queries[i].id], n);
    }
  }

  /** Reading the texts of other matches too changes no candidate. */
  lemma {:induction false} SameCandidates(w: World, everything: seq<Match>, top: seq<Match>)
    requires forall m :: m in top ==> m in everything
    ensures Candidates(top, RawData(w, everything)) == Candidates(top, RawData(w, top))
  {
    CandidatesOfOwnRows(top, RawData(w, everything), RawData(w, top));
  }

  /** `_llm_rerank_many`: one read of the item texts for all queries, then a judgement each. */
  method LlmRerankMany(w: World, queries: seq<BatchQuery>, ranked: map<string, seq<Match>>, n: nat)
    returns (outcomes: map<string, seq<Match>>)
    requires DistinctQueries(queries) && forall i :: 0 <= i < |queries| ==> queries[i].id in ranked
    ensures Filled(queries, AllJudgements(w, queries, ranked, n), |queries|, outcomes)
  {
    var everything := AllTop(queries, ranked, n);
    var raw := RawData(w, everything);
    ghost var want := AllJudgements(w, queries, ranked, n);
    outcomes := map[];
    for i := 0 to |queries|
      invariant Filled(queries, want, i, outcomes)
    {
      FillOne(queries, want, i, outcomes);
      SameCandidates(w, everything, Take(ranked[queries[i].id], n));
      var query, ms := queries[i], ranked[queries[i].id];
      var candidates := Candidates(Take(ms, n), raw);
      var outcome := LlmRerank(ms, candidates, w.ask(query.query, candidates));
      outcomes := outcomes[query.id := WithPositions(outcome.matches)];
    }
  }

  function TotalTokens(queries: seq<BatchQuery>, tokens: map<string, nat>): nat {
    if queries == [] then 0
    else (if queries[0].id in tokens then tokens[queries[0].id] else 0) + TotalTokens(queries[1..], tokens)
  }

  lemma {:induction false} TotalTokensAppend(queries: seq<BatchQuery>, q: BatchQuery, tokens: map<string, nat>, n: nat)
    requires forall i :: 0 <= i < |queries| ==> queries[i].id != q.id
    ensures TotalTokens(queries + [q], tokens[q.id := n]) == TotalTokens(queries, tokens) + n
  {
    if queries == [] {
      assert (queries + [q])[1..] == [];
    } else {
      assert (queries + [q])[1..] == queries[1..] + [q];
      TotalTokensAppend(queries[1..], q, tokens, n);
    }
  }

  function Share(base: nat, extra: nat, i: nat): nat {
    base + if i < extra then 1 else 0
  }

  function Shares(base: nat, extra: nat, n: nat): nat {
    if n == 0 then 0 else Shares(base, extra, n - 1) + Share(base, extra, n - 1)
  }

  lemma {:induction false} SharesAre(base: nat, extra: nat, n: nat)
    ensures Shares(base, extra, n) == n * base + if n <= extra then n else extra
  {
    if n > 0 { SharesAre(base, extra, n - 1); }
  }

  lemma {:induction false} SharesAddUp(used: nat, n: nat)
    requires n > 0
    ensures Shares(used / n, used % n, n) == used
  {
    SharesAre(used / n, used % n, n);
  }

  method GiveShares(misses: seq<BatchQuery>, base: nat, extra: nat) returns (tokens: map<string, nat>)
    requires DistinctQueries(misses)
    ensures TotalTokens(misses, tokens) == Shares(base, extra, |misses|)
    ensures forall i :: 0 <= i < |misses| ==> misses[i].id in tokens && tokens[misses[i].id] == Share(base, extra, i)
  {
    ghost var want := seq(|misses|, i requires 0 <= i < |misses| => Share(base, extra, i));
    tokens := map[];
    for i := 0 to |misses|
      invariant Filled(misses, want, i, tokens)
      invariant TotalTokens(misses[..i], tokens) == Shares(base, extra, i)
    {
      FillOne(misses, want, i, tokens);
      assert misses[..i + 1] == misses[..i] + [misses[i]];
      TotalTokensAppend(misses[..i], misses[i], tokens, Share(base, extra, i));
      tokens := tokens[misses[i].id := Share(base, extra, i)];
    }
    assert misses[..|misses|] == misses;
  }

  /** Splits the tokens of the one embedding call over the queries that needed it. */
  method SplitTokens(misses: seq<BatchQuery>, used: nat) returns (tokens: map<string, nat>)
    requires DistinctQueries(misses) && misses != []
    ensures TotalTokens(misses, tokens) == used
    ensures forall i :: 0 <= i < |misses| ==> misses[i].id in tokens
    ensures forall i, j :: 0 <= i < |misses| && 0 <= j < |misses| ==>
      tokens[misses[i].id] <= tokens[misses[j].id] + 1
  {
    SharesAddUp(used, |misses|);
    tokens := GiveShares(misses, used / |misses|, used % |misses|);
  }

  /** A cached query has its cached results in `hits`; any other is a miss. */
  predicate HitOrMiss(w: World, r: Request, q: BatchQuery, filters: map<string, PineconeFilter>,
                      hits: map<string, seq<Result>>, misses: seq<BatchQuery>)
  {
    && q.id in filters
    && var key := KeyOf(w, r, q.query, filters[q.id]);
       if key in w.cache then q.id in hits && hits[q.id] == w.cache[key] else q.id !in hits && q in misses
  }

  /** The cached queries are the hits and the others the misses. */
  ghost predicate LookedUp(w: World, r: Request, queries: seq<BatchQuery>, filters: map<string, PineconeFilter>,
                           hits: map<string, seq<Result>>, misses: seq<BatchQuery>)
  {
    && (forall i :: 0 <= i < |misses| ==> misses[i] in queries && misses[i].id !in hits)
    && forall i :: 0 <= i < |queries| ==> HitOrMiss(w, r, queries[i], filters, hits, misses)
  }

  lemma LookupTurn(w: World, r: Request, queries: seq<BatchQuery>, filters: map<string, PineconeFilter>,
                   hits: map<string, seq<Result>>, misses: seq<BatchQuery>, i: nat)
    requires DistinctQueries(queries) && i < |queries| && queries[i].id in filters && queries[i].id !in hits
    requires forall k :: 0 <= k < |misses| ==> misses[k].id != queries[i].id
    requires LookedUp(w, r, queries[..i], filters, hits, misses)
    ensures var key := KeyOf(w, r, queries[i].query, filters[queries[i].id]);
            if key in w.cache then
              LookedUp(w, r, queries[..i + 1], filters, hits[queries[i].id := w.cache[key]], misses)
            else LookedUp(w, r, queries[..i + 1], filters, hits, misses + [queries[i]])
  {
    var q, done := queries[i], queries[..i + 1];
    var key := KeyOf(w, r, q.query, filters[q.id]);
    var hits' := if key in w.cache then hits[q.id := w.cache[key]] else hits;
    var misses' := if key in w.cache then misses else misses + [q];
    assert done == queries[..i] + [q] && done[i] == q;
    forall j | 0 <= j < |done| ensures HitOrMiss(w, r, done[j], filters, hits', misses') {
      if j < i { assert HitOrMiss(w, r, queries[..i][j], filters, hits, misses); }
    }
  }

  /** Cached results for the queries that have some, and the queries that do not, in order. */
  method Lookup(w: World, r: Request, queries: seq<BatchQuery>, filters: map<string, PineconeFilter>)
    returns (hits: map<string, seq<Result>>, misses: seq<BatchQuery>)
    requires DistinctQueries(queries) && forall i :: 0 <= i < |queries| ==> queries[i].id in filters
    ensures DistinctQueries(misses) && LookedUp(w, r, queries, filters, hits, misses)
  {
    hits, misses := map[], [];
    for i := 0 to |queries|
      invariant DistinctQueries(misses)
      invariant forall j :: i <= j < |queries| ==> queries[j].id !in hits
      invariant forall k, j :: 0 <= k < |misses| && i <= j < |queries| ==> misses[k].id != queries[j].id
      invariant LookedUp(w, r, queries[..i], filters, hits, misses)
    {
      var key := KeyOf(w, r, queries[i].query, filters[queries[i].id]);
      ghost var before, found := misses, hits;
      if key in w.cache {
        hits := hits[queries[i].id := w.cache[key]];
      } else {
        misses := misses + [queries[i]];
      }
      LookupTurn(w, r, queries, filters, found, before, i);
    }
    assert queries[..|queries|] == queries;
  }

  ghost function AllSearches(w: World, r: Request, misses: seq<BatchQuery>, filters: map<string, PineconeFilter>)
    : seq<seq<Result>>
    requires ValidWorld(w) && forall i :: 0 <= i < |misses| ==> misses[i].id in filters
  {
    seq(|misses|, i requires 0 <= i < |misses| => Search(w, r, misses[i].query, filters[misses[i].id]))
  }

  /** The LLM stage for all misses, when it is on. */
  method JudgeMisses(w: World, r: Request, misses: seq<BatchQuery>, filters: map<string, PineconeFilter>,
                     ranked: map<string, seq<Match>>)
    returns (final: map<string, seq<Match>>)
    requires ValidWorld(w) && DistinctQueries(misses)
    requires forall i :: 0 <= i < |misses| ==> misses[i].id in filters && misses[i].query != ""
    requires Filled(misses, AllRanked(w, r, misses, filters, Max(r.topK, LlmCandidates(w, r))), |misses|, ranked)
    ensures forall i :: 0 <= i < |misses| ==> misses[i].id in final
    ensures forall i :: 0 <= i < |misses| ==>
      Formatted(Take(final[misses[i].id], r.topK), w.filterFields, w.round)
      == Search(w, r, misses[i].query, filters[misses[i].id])
  {
    final := ranked;
    if LlmCandidates(w, r) > 0 {
      final := LlmRerankMany(w, misses, ranked, LlmCandidates(w, r));
    }
  }

  /** Ranks, judges and formats the misses. */
  method Compute(w: World, r: Request, misses: seq<BatchQuery>, filters: map<string, PineconeFilter>,
                 taste: Option<Taste>)
    returns (computed: map<string, seq<Result>>)
    requires ValidWorld(w) && DistinctQueries(misses) && taste == TasteOf(w, r)
    requires forall i :: 0 <= i < |misses| ==> misses[i].id in filters && misses[i].query != ""
    ensures Filled(misses, AllSearches(w, r, misses, filters), |misses|, computed)
  {
    var ranked := RankMisses(w, r, misses, filters, taste);
    var final := JudgeMisses(w, r, misses, filters, ranked);
    ghost var want := AllSearches(w, r, misses, filters);
    computed := map[];
    for i := 0 to |misses|
      invariant Filled(misses, want, i, computed)
    {
      FillOne(misses, want, i, computed);
      var id := misses[i].id;
      computed := computed[id := Formatted(Take(final[id], r.topK), w.filterFields, w.round)];
    }
  }

  /** What decides, before the batch is asked, whether it reports `personalized` as the single path does: the
      answer is cached, the user has no history, or a taste can be made of it. */
  predicate SameLabel(w: World, r: Request, q: BatchQuery, filter: PineconeFilter)
    requires ValidWorld(w)
  {
    KeyOf(w, r, q.query, filter) in w.cache || History(w, r) == [] || TasteOf(w, r).Some?
  }

  /** The batch answer for one query agrees with the single path: same results, cache key and hit, and the same
      `personalized` exactly under `SameLabel`. */
  ghost predicate Agrees(w: World, r: Request, q: BatchQuery, answer: Recommendation)
    requires ValidWorld(w)
  {
    var one := RecommendByText(w, r, q.query, q.filters);
    && one.Some?
    && answer.results == one.value.results && answer.key == one.value.key && answer.hit == one.value.hit
    && (answer.personalized == one.value.personalized <==> SameLabel(w, r, q, w.buildFilter(q.filters).value))
  }

  /** A user who liked an item that has no vector any more, and an empty cache. */
  function Forgotten(sqrt: real -> real, log1p: real -> real): World {
    World(1, filters => Some(map[]), text => [1.0], (k, vector, filter) => [], (text, filter, k) => [], ids => map[],
          ids => [], user => ["item"], [], map[], false, (text, candidates) => NotConfigured, map[], texts => 0, {},
          sqrt, log1p, x => x)
  }

  const PERSONAL: Request :=
    Request(Config(Weights(0.0, 0.0, 0.0, 0.0), 0.2, 0.0, false, 0), RerankedArm, Some("user"), 10)

  /** There the two paths differ on every query. */
  lemma LabelsDiffer(sqrt: real -> real, log1p: real -> real, q: BatchQuery, answer: Recommendation)
    requires IsLog1p(log1p)
    ensures ValidWorld(Forgotten(sqrt, log1p)) && !SameLabel(Forgotten(sqrt, log1p), PERSONAL, q, map[])
    ensures Agrees(Forgotten(sqrt, log1p), PERSONAL, q, answer) ==>
              answer.personalized
              != RecommendByText(Forgotten(sqrt, log1p), PERSONAL, q.query, q.filters).value.personalized
  {
    var w := Forgotten(sqrt, log1p);
    assert History(w, PERSONAL) == ["item"];
    assert w.likedVectors(["item"]) == [];
  }

  /** What the earlier steps left for one query. */
  ghost predicate Prepared(w: World, r: Request, q: BatchQuery, filters: map<string, PineconeFilter>,
                           hits: map<string, seq<Result>>, computed: map<string, seq<Result>>, taste: Option<Taste>)
    requires ValidWorld(w)
  {
    && q.id in filters && w.buildFilter(q.filters) == Some(filters[q.id])
    && var key := KeyOf(w, r, q.query, filters[q.id]);
       if key in w.cache then q.id in hits && hits[q.id] == w.cache[key]
       else && q.id !in hits && taste == TasteOf(w, r)
            && q.id in computed && computed[q.id] == Search(w, r, q.query, filters[q.id])
  }

  predicate Ready(q: BatchQuery, filters: map<string, PineconeFilter>, hits: map<string, seq<Result>>,
                  computed: map<string, seq<Result>>) {
    q.id in filters && (q.id in hits || q.id in computed)
  }

  function AnswerFor(w: World, r: Request, q: BatchQuery, filters: map<string, PineconeFilter>,
                     hits: map<string, seq<Result>>, computed: map<string, seq<Result>>,
                     taste: Option<Taste>): Recommendation
    requires Ready(q, filters, hits, computed)
  {
    var key := KeyOf(w, r, q.query, filters[q.id]);
    if q.id in hits then Recommendation(hits[q.id], key, true, History(w, r) != [])
    else Recommendation(computed[q.id], key, false, taste.Some?)
  }

  ghost function AllAnswers(w: World, r: Request, queries: seq<BatchQuery>, filters: map<string, PineconeFilter>,
                            hits: map<string, seq<Result>>, computed: map<string, seq<Result>>,
                            taste: Option<Taste>): seq<Recommendation>
    requires forall i :: 0 <= i < |queries| ==> Ready(queries[i], filters, hits, computed)
  {
    seq(|queries|, i requires 0 <= i < |queries| => AnswerFor(w, r, queries[i], filters, hits, computed, taste))
  }

  /** The final dictionary comprehension. */
  method Answer(w: World, r: Request, queries: seq<BatchQuery>, filters: map<string, PineconeFilter>,
                hits: map<string, seq<Result>>, computed: map<string, seq<Result>>, taste: Option<Taste>)
    returns (all: map<string, Recommendation>)
    requires DistinctQueries(queries) && forall i :: 0 <= i < |queries| ==> Ready(queries[i], filters, hits, computed)
    ensures Filled(queries, AllAnswers(w, r, queries, filters, hits, computed, taste), |queries|, all)
  {
    ghost var want := AllAnswers(w, r, queries, filters, hits, computed, taste);
    all := map[];
    for i := 0 to |queries|
      invariant Filled(queries, want, i, all)
    {
      FillOne(queries, want, i, all);
      all := all[queries[i].id := AnswerFor(w, r, queries[i], filters, hits, computed, taste)];
    }
  }

  ghost predicate AllPrepared(w: World, r: Request, queries: seq<BatchQuery>, filters: map<string, PineconeFilter>,
                              hits: map<string, seq<Result>>, computed: map<string, seq<Result>>,
                              taste: Option<Taste>)
    requires ValidWorld(w)
  {
    forall i :: 0 <= i < |queries| ==> Prepared(w, r, queries[i], filters, hits, computed, taste)
  }

  lemma AllArePrepared(w: World, r: Request, queries: seq<BatchQuery>, filters: map<string, PineconeFilter>,
                       hits: map<string, seq<Result>>, misses: seq<BatchQuery>,
                       computed: map<string, seq<Result>>, taste: Option<Taste>)
    requires ValidWorld(w) && LookedUp(w, r, queries, filters, hits, misses)
    requires forall i :: 0 <= i < |queries| ==> w.buildFilter(queries[i].filters) == Some(filters[queries[i].id])
    requires misses != [] ==> taste == TasteOf(w, r)
    requires forall i :: 0 <= i < |misses| ==> misses[i].id in filters
    requires misses != [] ==> Filled(misses, AllSearches(w, r, misses, filters), |misses|, computed)
    ensures AllPrepared(w, r, queries, filters, hits, computed, taste)
    ensures forall i :: 0 <= i < |queries| ==> Ready(queries[i], filters, hits, computed)
  {
    forall i | 0 <= i < |queries| ensures Prepared(w, r, queries[i], filters, hits, computed, taste) {
      if queries[i] in misses {
        var j :| 0 <= j < |misses| && misses[j] == queries[i];
        assert AllSearches(w, r, misses, filters)[j] == Search(w, r, misses[j].query, filters[misses[j].id]);
      }
    }
  }

  lemma AnswersAgree(w: World, r: Request, queries: seq<BatchQuery>, filters: map<string, PineconeFilter>,
                     hits: map<string, seq<Result>>, computed: map<string, seq<Result>>, taste: Option<Taste>,
                     all: map<string, Recommendation>)
    requires ValidWorld(w) && AllPrepared(w, r, queries, filters, hits, computed, taste)
    requires forall i :: 0 <= i < |queries| ==> Ready(queries[i], filters, hits, computed)
    requires Filled(queries, AllAnswers(w, r, queries, filters, hits, computed, taste), |queries|, all)
    ensures forall i :: 0 <= i < |queries| ==>
              && queries[i].id in all && Agrees(w, r, queries[i], all[queries[i].id])
              && (all[queries[i].id].hit <==> queries[i].id in hits)
  {
    forall i | 0 <= i < |queries|
      ensures queries[i].id in all && Agrees(w, r, queries[i], all[queries[i].id])
      ensures all[queries[i].id].hit <==> queries[i].id in hits
    {
      assert Prepared(w, r, queries[i], filters, hits, computed, taste);
      assert AllAnswers(w, r, queries, filters, hits, computed, taste)[i]
          == AnswerFor(w, r, queries[i], filters, hits, computed, taste);
    }
  }

  /** `recommend_batch`: refused exactly when some query's filters are; otherwise every query gets
      what `recommend_by_text` would give it, and the misses' token shares add up to what the one
      embedding call used. Query ids are unique and query texts not empty (the request schema). */
  method RecommendBatch(w: World, r: Request, queries: seq<BatchQuery>)
    returns (answers: Option<map<string, Recommendation>>, tokens: map<string, nat>, misses: seq<BatchQuery>)
    requires ValidWorld(w) && DistinctQueries(queries)
    requires forall i :: 0 <= i < |queries| ==> queries[i].query != ""
    ensures answers.None? <==> exists i :: 0 <= i < |queries| && w.buildFilter(queries[i].filters).None?
    ensures answers.Some? ==> forall i :: 0 <= i < |queries| ==>
              queries[i].id in answers.value && Agrees(w, r, queries[i], answers.value[queries[i].id])
    ensures answers.Some? && misses != [] ==>
              TotalTokens(misses, tokens) == w.usage(seq(|misses|, i requires 0 <= i < |misses| => misses[i].query))
    ensures answers.Some? ==> forall i :: 0 <= i < |queries| ==>
      queries[i].id in answers.value && (queries[i] in misses <==> !answers.value[queries[i].id].hit)
  {
    tokens, misses := map[], [];
    var built := BuildFilters(w, queries);
    if built.None? { return None, tokens, misses; }
    var filters := built.value;
    var hits;
    hits, misses := Lookup(w, r, queries, filters);
    var taste: Option<Taste> := None;
    var computed: map<string, seq<Result>> := map[];
    if misses != [] {
      taste := TasteOf(w, r);
      computed := Compute(w, r, misses, filters, taste);
      tokens := SplitTokens(misses, w.usage(seq(|misses|, i requires 0 <= i < |misses| => misses[i].query)));
    }
    AllArePrepared(w, r, queries, filters, hits, misses, computed, taste);
    var all := Answer(w, r, queries, filters, hits, computed, taste);
    AnswersAgree(w, r, queries, filters, hits, computed, taste, all);
    answers := Some(all);
  }
}
