/** What a text query returns (app/services/recommendation/query_engine.py), said of the stored
    vectors, the keyword hits, the feedback and the model's answers. */
module TextQueries {
  import opened Dicts
  import opened Arithmetic
  import opened Vectors
  import opened Matches
  import opened Hybrid
  import opened Reranker
  import opened LlmReranker
  import opened ResultFormatter
  import opened Sequences
  import opened Sorting
  import opened QueryEngine

  // ---- The vector searched with ----

  /** The vectors of what the user liked, where that counts. */
  function LikedVectors(w: World, r: Request): seq<Vec> {
    if r.variant.RerankedArm? && r.config.personalization > 0.0 && r.user.Some? && r.user.value != ""
       && w.likedItems(r.user.value) != []
    then w.likedVectors(w.likedItems(r.user.value))
    else []
  }

  /** How far an item lies towards the text and, in the configured proportion, towards the liked items. */
  function Toward(w: World, r: Request, text: string, item: Vec): real
    requires ValidWorld(w) && |item| == w.dimension && LikedVectors(w, r) != []
  {
    var p, liked := r.config.personalization, Sum(LikedVectors(w, r), w.dimension);
    Times(1.0 - p, Along(w.embed(text), item, w.sqrt)) + Times(p, Along(liked, item, w.sqrt))
  }

  /** The text's own vector or, for a user with a taste, one of unit length (or zero) that orders items as `Toward`
      does. */
  ghost predicate SearchVector(w: World, r: Request, text: string, v: Vec)
    requires ValidWorld(w)
  {
    && |v| == w.dimension
    && if LikedVectors(w, r) == [] then v == w.embed(text)
       else
         && (Dot(v, v) == 1.0 || IsZero(v))
         && forall x: Vec, y: Vec :: |x| == w.dimension && |y| == w.dimension ==>
              (Dot(v, x) < Dot(v, y) <==> Toward(w, r, text, x) < Toward(w, r, text, y))
  }

  lemma LeanedVector(w: World, r: Request, text: string)
    requires ValidWorld(w) && IsSqrt(w.sqrt)
    ensures SearchVector(w, r, text, Lean(TasteOf(w, r), w.embed(text), w.sqrt))
  {
    var liked, q := LikedVectors(w, r), w.embed(text);
    if liked != [] {
      assert SameLength(liked, w.dimension);
      var taste := FromVectors(liked, r.config.personalization, w.sqrt).value;
      assert TasteOf(w, r) == Some(taste);
      var v := Apply(taste, q, w.sqrt);
      ApplyLeans(taste, q, q, w.sqrt);
      forall x: Vec, y: Vec | |x| == w.dimension && |y| == w.dimension
        ensures Dot(v, x) < Dot(v, y) <==> Toward(w, r, text, x) < Toward(w, r, text, y)
      {
        LeaningOrder(taste, q, x, y, w.sqrt);
        LeaningIs(liked, r.config.personalization, q, x, w.sqrt);
        LeaningIs(liked, r.config.personalization, q, y, w.sqrt);
      }
    }
  }

  // ---- How many are searched, kept and judged ----

  /** The matches the model reads. */
  function Read(w: World, r: Request, text: string): nat {
    if text != "" && w.hasLlm && r.config.llmRerank && r.variant.RerankedArm? then r.config.llmCandidates else 0
  }

  function Kept(w: World, r: Request, text: string): nat {
    if Read(w, r, text) > r.topK then Read(w, r, text) else r.topK
  }

  /** Feedback counts in the treatment arm once anything was shown. */
  predicate FeedbackCounts(w: World, r: Request) {
    r.variant.RerankedArm? && TotalImpressions(w.rows) > 0.0
  }

  /** Four times as many as are kept, at most 200, where feedback counts. */
  function Searched(w: World, r: Request, text: string): nat {
    var k := Kept(w, r, text);
    if !FeedbackCounts(w, r) then k else if 4 * k <= 200 then 4 * k else 200
  }

  /** Only what the vector store answers for `v` matters. */
  ghost predicate DependsOnlyAt(w: World, r: Request, text: string, filters: Filters, v: Vec)
    requires ValidWorld(w)
  {
    var filter, k := w.buildFilter(filters), Searched(w, r, text);
    filter.Some? ==> forall search: (nat, Vec, PineconeFilter) -> seq<Match> ::
      search(k, v, filter.value) == w.search(k, v, filter.value) ==>
        RecommendByText(w.(search := search), r, text, filters) == RecommendByText(w, r, text, filters)
  }

  /** A query searches once, with the text's vector leaned towards what the user liked. */
  lemma SearchesTowardTaste(w: World, r: Request, text: string, filters: Filters)
    requires ValidWorld(w) && IsSqrt(w.sqrt)
    ensures exists v :: SearchVector(w, r, text, v) && DependsOnlyAt(w, r, text, filters, v)
  {
    var v := Lean(TasteOf(w, r), w.embed(text), w.sqrt);
    LeanedVector(w, r, text);
    var filter, k := w.buildFilter(filters), Searched(w, r, text);
    if filter.Some? {
      forall search: (nat, Vec, PineconeFilter) -> seq<Match> |
        search(k, v, filter.value) == w.search(k, v, filter.value)
        ensures RecommendByText(w.(search := search), r, text, filters) == RecommendByText(w, r, text, filters)
      {
        SameRecommendation(w, r, text, filters, search);
      }
    }
  }

  /** The same world but for its cache and for what vector search answers to other requests. */
  ghost predicate AnswersAlike(w: World, other: World, r: Request, text: string, filter: PineconeFilter)
    requires ValidWorld(w)
  {
    var k, v := Searched(w, r, text), Lean(TasteOf(w, r), w.embed(text), w.sqrt);
    && other == w.(search := other.search, cache := other.cache) && ValidWorld(other)
    && other.search(k, v, filter) == w.search(k, v, filter)
  }

  lemma SameRecommendation(w: World, r: Request, text: string, filters: Filters,
                           search: (nat, Vec, PineconeFilter) -> seq<Match>)
    requires ValidWorld(w) && w.buildFilter(filters).Some?
    requires var k, v := Searched(w, r, text), Lean(TasteOf(w, r), w.embed(text), w.sqrt);
             var filter := w.buildFilter(filters).value; search(k, v, filter) == w.search(k, v, filter)
    ensures ValidWorld(w.(search := search))
    ensures RecommendByText(w.(search := search), r, text, filters) == RecommendByText(w, r, text, filters)
  {
    var w', filter := w.(search := search), w.buildFilter(filters).value;
    SameSearch(w, w', r, text, filter);
    assert KeyOf(w', r, text, filter) == KeyOf(w, r, text, filter) && History(w', r) == History(w, r);
  }

  lemma SameText(w: World, other: World, r: Request, text: string, filter: PineconeFilter)
    requires ValidWorld(w) && AnswersAlike(w, other, r, text, filter)
    ensures var k := Searched(w, r, text); SearchText(other, r, text, k, filter) == SearchText(w, r, text, k, filter)
  {
    assert TasteOf(other, r) == TasteOf(w, r);
  }

  lemma SameRanked(w: World, other: World, r: Request, text: string, filter: PineconeFilter)
    requires ValidWorld(w) && AnswersAlike(w, other, r, text, filter)
    ensures var k := Kept(w, r, text); RankedSearch(other, r, text, k, filter) == RankedSearch(w, r, text, k, filter)
  {
    SameText(w, other, r, text, filter);
    RankedIs(w, r, text, filter);
    RankedIs(other, r, text, filter);
  }

  /** What is ranked is one search, re-ranked where feedback counts. */
  lemma RankedIs(w: World, r: Request, text: string, filter: PineconeFilter)
    requires ValidWorld(w)
    ensures var found, k := SearchText(w, r, text, Searched(w, r, text), filter), Kept(w, r, text);
            RankedSearch(w, r, text, k, filter)
            == if FeedbackCounts(w, r)
               then Reranked(found, k, w.rows, r.config.weights, WorkspaceStatsOf(w.rows), w.log1p)
               else found
  {
    var k := Kept(w, r, text);
    DataCounts(w.rows);
    assert Searched(w, r, text) == if FeedbackCounts(w, r) then CandidateCount(k) else k;
  }

  lemma {:induction false} DataCounts(rows: seq<ItemStats>)
    ensures WorkspaceStatsOf(rows).HasData() <==> TotalImpressions(rows) > 0.0
  {
  }

  lemma SameSearch(w: World, other: World, r: Request, text: string, filter: PineconeFilter)
    requires ValidWorld(w) && AnswersAlike(w, other, r, text, filter)
    ensures Search(other, r, text, filter) == Search(w, r, text, filter)
  {
    SameRanked(w, other, r, text, filter);
    SearchIs(w, r, text, filter);
    SearchIs(other, r, text, filter);
  }

  /** and the results are what is ranked, judged where the model reads any. */
  lemma SearchIs(w: World, r: Request, text: string, filter: PineconeFilter)
    requires ValidWorld(w)
    ensures var ranked, n := RankedSearch(w, r, text, Kept(w, r, text), filter), Read(w, r, text);
            Search(w, r, text, filter)
            == Formatted(Take(if n > 0 then Judge(w, text, ranked, n) else ranked, r.topK), w.filterFields, w.round)
  {
  }

  // ---- The control arm ----

  /** The control arm is the plain search for the text. */
  lemma ControlIsPlain(w: World, r: Request, text: string, filter: PineconeFilter)
    requires ValidWorld(w) && r.variant.ControlArm?
    ensures Search(w, r, text, filter) == PlainSearch(w, r.topK, text, filter)
  {
  }

  /** Two worlds alike in what they store of the items. */
  ghost predicate SameStore(a: World, b: World) {
    && a.dimension == b.dimension && a.buildFilter == b.buildFilter && a.embed == b.embed && a.search == b.search
    && a.filterFields == b.filterFields && a.round == b.round
  }

  /** There, neither the user nor any setting, like, feedback, keyword hit or answer of the model changes the
      results. */
  lemma ControlIgnoresSettings(a: World, r: Request, b: World, s: Request, text: string, filters: Filters)
    requires ValidWorld(a) && ValidWorld(b) && SameStore(a, b)
    requires r.variant.ControlArm? && s.variant.ControlArm? && r.topK == s.topK
    ensures var x, y := RecommendByText(a, r, text, filters), RecommendByText(b, s, text, filters);
            && (x.Some? <==> y.Some?)
            && (x.Some? && !x.value.hit && !y.value.hit ==> x.value.results == y.value.results)
  {
    ControlMiss(a, r, text, filters);
    ControlMiss(b, s, text, filters);
  }

  lemma ControlMiss(w: World, r: Request, text: string, filters: Filters)
    requires ValidWorld(w) && r.variant.ControlArm?
    ensures var x, filter := RecommendByText(w, r, text, filters), w.buildFilter(filters);
            && (x.Some? <==> filter.Some?)
            && (x.Some? && !x.value.hit ==> x.value.results == PlainSearch(w, r.topK, text, filter.value))
  {
    if w.buildFilter(filters).Some? { ControlIsPlain(w, r, text, w.buildFilter(filters).value); }
  }

  function PlainSearch(w: World, topK: nat, text: string, filter: PineconeFilter): seq<Result> {
    Formatted(Take(w.search(topK, w.embed(text), filter), topK), w.filterFields, w.round)
  }

  lemma AtMostTopK(w: World, r: Request, text: string, filters: Filters)
    requires ValidWorld(w)
    ensures var x := RecommendByText(w, r, text, filters);
            && (x.Some? <==> w.buildFilter(filters).Some?)
            && (x.Some? && !x.value.hit ==> |x.value.results| <= r.topK)
            && (x.Some? && x.value.hit ==> x.value.key in w.cache && x.value.results == w.cache[x.value.key])
  {
  }

  // ---- The result cache ----

  lemma SameTaste(w: World, r: Request, s: Request, text: string, other: string, f: PineconeFilter, g: PineconeFilter)
    requires ValidWorld(w) && KeyOf(w, r, text, f) == KeyOf(w, s, other, g)
    ensures TasteOf(w, r) == TasteOf(w, s)
  {
    if History(w, r) == [] {
      assert History(w, s) == [];
    } else {
      assert r.user == s.user && History(w, s) == History(w, r);
    }
  }

  lemma SameSearchText(w: World, r: Request, s: Request, text: string, k: nat, filter: PineconeFilter)
    requires ValidWorld(w) && TasteOf(w, r) == TasteOf(w, s) && r.variant == s.variant && r.config == s.config
    ensures SearchText(w, r, text, k, filter) == SearchText(w, s, text, k, filter)
  {
  }

  /** Queries that share a cache key have the same results: the key tells apart all that matters. */
  lemma SameKeySameResults(w: World, r: Request, s: Request, text: string, other: string, f: PineconeFilter,
                           g: PineconeFilter)
    requires ValidWorld(w) && KeyOf(w, r, text, f) == KeyOf(w, s, other, g)
    ensures Search(w, r, text, f) == Search(w, s, other, g)
  {
    SameTaste(w, r, s, text, other, f, g);
    SameSearchText(w, r, s, text, Searched(w, r, text), f);
    RankedIs(w, r, text, f);
    RankedIs(w, s, text, f);
    SearchIs(w, r, text, f);
    SearchIs(w, s, text, f);
  }

  /** A user whose likes do not count shares the anonymous entry, and no other. */
  lemma AnonymousEntry(w: World, r: Request, text: string, filter: PineconeFilter)
    ensures KeyOf(w, r, text, filter) == KeyOf(w, r.(user := None), text, filter) <==> History(w, r) == []
  {
  }

  /** Every cached entry is what a search would give now. */
  ghost predicate CacheTrue(w: World)
    requires ValidWorld(w)
  {
    forall r, text, filter :: KeyOf(w, r, text, filter) in w.cache ==>
      w.cache[KeyOf(w, r, text, filter)] == Search(w, r, text, filter)
  }

  lemma SearchIgnoresCache(w: World, cache: map<Key, seq<Result>>, r: Request, text: string, filter: PineconeFilter)
    requires ValidWorld(w)
    ensures ValidWorld(w.(cache := cache))
    ensures Search(w.(cache := cache), r, text, filter) == Search(w, r, text, filter)
    ensures KeyOf(w.(cache := cache), r, text, filter) == KeyOf(w, r, text, filter)
  {
    SameSearch(w, w.(cache := cache), r, text, filter);
  }

  /** A query answers with what a search gives, cached or not, and storing that keeps the cache true. */
  lemma RecommendKeepsCacheTrue(w: World, r: Request, text: string, filters: Filters)
    requires ValidWorld(w) && CacheTrue(w) && w.buildFilter(filters).Some?
    ensures var x := RecommendByText(w, r, text, filters).value;
            var w' := w.(cache := w.cache[x.key := x.results]);
            && x.results == Search(w, r, text, w.buildFilter(filters).value)
            && ValidWorld(w') && CacheTrue(w')
  {
    var x := RecommendByText(w, r, text, filters).value;
    var cache := w.cache[x.key := x.results];
    var w' := w.(cache := cache);
    forall s, other, g | KeyOf(w', s, other, g) in cache
      ensures cache[KeyOf(w', s, other, g)] == Search(w', s, other, g)
    {
      SearchIgnoresCache(w, cache, s, other, g);
      if KeyOf(w, s, other, g) == x.key {
        SameKeySameResults(w, r, s, text, other, w.buildFilter(filters).value, g);
      }
    }
  }

  // ---- A store that answers exactly ----

  /** As the vector store gives them. */
  ghost predicate FromStore(ms: seq<Match>) {
    forall i :: 0 <= i < |ms| ==> Fresh(ms[i]) && ms[i].retrieval == None
  }

  /** Vector search gives the `k` most similar of the stored items that pass the filter, keyword scores are not
      negative, and vectors are fetched for the hits that are stored. */
  ghost predicate ExactAt(w: World, text: string, filter: PineconeFilter, stored: map<string, Vec>, k: nat, v: Vec)
    requires SameDimension(stored, v)
  {
    var ms, hits := w.search(k, v, filter), w.keywordSearch(text, filter, k);
    && IsVectorTopK(ms, stored, v, k, w.sqrt) && SortedBy(ms, ByRetrieval) && FromStore(ms)
    && IsKeywordList(hits) && Fetched(w.fetchVectors(KeywordOnlyIds(ms, hits)), KeywordOnlyIds(ms, hits), stored)
  }

  ghost predicate Exact(w: World, text: string, filter: PineconeFilter, stored: map<string, Vec>) {
    && (forall id :: id in stored ==> |stored[id]| == w.dimension)
    && forall k: nat, v: Vec :: |v| == w.dimension ==> ExactAt(w, text, filter, stored, k, v)
  }

  /** Similarity to the search vector, plus the weighted keyword boost in the treatment arm. */
  function Fit(w: World, r: Request, text: string, filter: PineconeFilter, stored: map<string, Vec>, v: Vec,
               id: string): real
    requires SameDimension(stored, v) && id in stored
  {
    var hits := w.keywordSearch(text, filter, Searched(w, r, text));
    Cosine(v, stored[id], w.sqrt)
    + if r.variant.RerankedArm? && r.config.keyword > 0.0 then Times(r.config.keyword, Boost(hits, BestScore(hits), id))
      else 0.0
  }

  ghost predicate Fits(w: World, r: Request, text: string, filter: PineconeFilter, stored: map<string, Vec>, v: Vec,
                       m: Match)
    requires SameDimension(stored, v)
  {
    && m.id in stored && m.score == Cosine(v, stored[m.id], w.sqrt)
    && RetrievalScore(m) == Fit(w, r, text, filter, stored, v, m.id)
    && Fresh(m)
  }

  /** The keyword hits that count. */
  function Hits(w: World, r: Request, text: string, filter: PineconeFilter): seq<KeywordMatch> {
    if r.variant.RerankedArm? && r.config.keyword > 0.0 then w.keywordSearch(text, filter, Searched(w, r, text)) else []
  }

  /** The best fits of all that is stored, best first, and none left out that fits better; each as the store or the
      first hit for it describes it. */
  ghost predicate Shortlist(w: World, r: Request, text: string, filter: PineconeFilter, stored: map<string, Vec>,
                            v: Vec, ms: seq<Match>)
    requires SameDimension(stored, v)
  {
    var k := Searched(w, r, text);
    && DistinctIds(ms) && SortedBy(ms, ByRetrieval)
    && |ms| == (if k <= |stored| then k else |stored|)
    && (forall i :: 0 <= i < |ms| ==> Fits(w, r, text, filter, stored, v, ms[i]))
    && (forall i :: 0 <= i < |ms| ==> Sourced(ms[i], w.search(k, v, filter), Hits(w, r, text, filter)))
    && forall x, i :: x in stored && x !in Ids(ms) && 0 <= i < |ms| ==>
         Fit(w, r, text, filter, stored, v, x) <= RetrievalScore(ms[i])
  }

  lemma ShortlistIs(w: World, r: Request, text: string, filter: PineconeFilter, stored: map<string, Vec>)
    requires ValidWorld(w) && Exact(w, text, filter, stored)
    ensures var v := Lean(TasteOf(w, r), w.embed(text), w.sqrt);
            Shortlist(w, r, text, filter, stored, v, SearchText(w, r, text, Searched(w, r, text), filter))
  {
    if KeywordWeight(r) > 0.0 {
      FusedShortlist(w, r, text, filter, stored);
    } else {
      var v, k := Lean(TasteOf(w, r), w.embed(text), w.sqrt), Searched(w, r, text);
      assert ExactAt(w, text, filter, stored, k, v);
      var ms := w.search(k, v, filter);
      forall i | 0 <= i < |ms| ensures Sourced(ms[i], ms, []) {
        assert ms[i] == ms[i].(retrieval := ms[i].retrieval);
      }
    }
  }

  lemma FusedShortlist(w: World, r: Request, text: string, filter: PineconeFilter, stored: map<string, Vec>)
    requires ValidWorld(w) && Exact(w, text, filter, stored) && KeywordWeight(r) > 0.0
    ensures var v := Lean(TasteOf(w, r), w.embed(text), w.sqrt);
            Shortlist(w, r, text, filter, stored, v, SearchText(w, r, text, Searched(w, r, text), filter))
  {
    var v, k := Lean(TasteOf(w, r), w.embed(text), w.sqrt), Searched(w, r, text);
    var ms, hits := w.search(k, v, filter), w.keywordSearch(text, filter, k);
    assert ExactAt(w, text, filter, stored, k, v);
    var missing := KeywordOnlyIds(ms, hits);
    var vectors := if missing != [] then w.fetchVectors(missing) else map[];
    FusedFits(w, r, text, filter, stored, v, ms, vectors);
    assert SearchText(w, r, text, k, filter) == Fused(ms, hits, vectors, v, KeywordWeight(r), k, w.sqrt);
  }

  lemma {:induction false} FusedFits(w: World, r: Request, text: string, filter: PineconeFilter,
                                     stored: map<string, Vec>, v: Vec, ms: seq<Match>, vectors: map<string, Vec>)
    requires SameDimension(stored, v) && SameDimension(vectors, v) && KeywordWeight(r) > 0.0
    requires ms == w.search(Searched(w, r, text), v, filter)
    requires IsVectorTopK(ms, stored, v, Searched(w, r, text), w.sqrt) && FromStore(ms)
    requires var hits := w.keywordSearch(text, filter, Searched(w, r, text));
             IsKeywordList(hits) && Fetched(vectors, KeywordOnlyIds(ms, hits), stored)
    ensures var k := Searched(w, r, text);
            Shortlist(w, r, text, filter, stored, v,
                      Fused(ms, w.keywordSearch(text, filter, k), vectors, v, KeywordWeight(r), k, w.sqrt))
  {
    var weight, k := KeywordWeight(r), Searched(w, r, text);
    var hits := w.keywordSearch(text, filter, k);
    FusionLosesNothing(ms, hits, vectors, stored, v, weight, k, w.sqrt);
    FusedNotReranked(ms, hits, vectors, v, weight, k, w.sqrt);
    FusedIsSourced(ms, hits, vectors, v, weight, k, w.sqrt);
    var fused := Fused(ms, hits, vectors, v, weight, k, w.sqrt);
    forall id | id in stored
      ensures Fit(w, r, text, filter, stored, v, id) == FullScore(id, stored, hits, v, weight, w.sqrt) {}
    forall i | 0 <= i < |fused| ensures Fits(w, r, text, filter, stored, v, fused[i]) {
      assert IsResult(fused[i], stored, hits, v, weight, w.sqrt) && Fresh(fused[i]);
    }
    forall i | 0 <= i < |fused| ensures Sourced(fused[i], ms, Hits(w, r, text, filter)) {
      assert fused[i] in fused;
    }
  }

  // ---- Re-ranking, judgement and the page of results ----

  ghost predicate Weighed(w: World, r: Request, short: seq<Match>, weighed: seq<Match>)
    requires ValidWorld(w)
  {
    && |weighed| == |short|
    && forall i :: 0 <= i < |short| ==>
         weighed[i] == short[i].(ranking := Some(RetrievalScore(short[i])
                                                 + Adjustment(StatsOf(w.rows, ExternalId(short[i])), r.config.weights,
                                                              WorkspaceStatsOf(w.rows), w.log1p)))
  }

  /** The shortlist, sorted by fit and feedback adjustment where feedback counts, cut to those kept. */
  ghost predicate Ranked(w: World, r: Request, text: string, short: seq<Match>, ranked: seq<Match>)
    requires ValidWorld(w)
  {
    if FeedbackCounts(w, r)
    then exists weighed :: Weighed(w, r, short, weighed) && ranked == Take(Sort(weighed, ByRanking), Kept(w, r, text))
    else ranked == short
  }

  /** Those the model can read: a match whose row is still there, by its id, with its text. */
  ghost predicate Readable(w: World, top: seq<Match>, candidates: seq<Candidate>) {
    forall c :: c in candidates <==> exists i :: 0 <= i < |top| && ReadAs(w, top[i], c)
  }

  ghost predicate ReadAs(w: World, m: Match, c: Candidate) {
    ExternalId(m) in w.rawData && c == Candidate(m.id, w.rawData[ExternalId(m)])
  }

  ghost predicate Judged(w: World, text: string, ranked: seq<Match>, candidates: seq<Candidate>, final: seq<Match>) {
    var answer := w.ask(text, candidates);
    if candidates == [] || !answer.Answered? then final == ranked
    else exists judged :: AllJudged(ranked, judged, candidates, answer.entries) && final == Sort(judged, ByScore)
  }

  /** What the model made of the first of them; nothing when it reads none. */
  ghost predicate Final(w: World, r: Request, text: string, ranked: seq<Match>, final: seq<Match>) {
    var n := Read(w, r, text);
    if n == 0 then final == ranked
    else exists candidates ::
           DistinctCandidates(candidates) && Readable(w, Take(ranked, n), candidates)
           && Judged(w, text, ranked, candidates, final)
  }

  /** The first `topK` of them as results, in that order. */
  ghost predicate Page(w: World, r: Request, final: seq<Match>, results: seq<Result>) {
    && |results| == (if r.topK <= |final| then r.topK else |final|)
    && forall i :: 0 <= i < |results| ==> Shown(final[i], i + 1, w.filterFields, w.round, results[i])
  }

  ghost predicate Answers(w: World, r: Request, text: string, filter: PineconeFilter, stored: map<string, Vec>,
                          v: Vec, results: seq<Result>)
    requires ValidWorld(w) && SameDimension(stored, v)
  {
    exists short, ranked, final ::
      && Shortlist(w, r, text, filter, stored, v, short) && Ranked(w, r, text, short, ranked)
      && Final(w, r, text, ranked, final) && Page(w, r, final, results)
  }

  lemma WeighedDistinct(w: World, r: Request, short: seq<Match>, weighed: seq<Match>)
    requires ValidWorld(w) && DistinctIds(short) && NotReranked(short) && Weighed(w, r, short, weighed)
    ensures DistinctIds(weighed) && Unjudged(weighed)
  {
    forall i | 0 <= i < |weighed| ensures weighed[i].id == short[i].id && Untouched(weighed[i]) {
      assert Fresh(short[i]);
    }
  }

  lemma {:induction false} SortedDistinct(weighed: seq<Match>, k: nat)
    requires DistinctIds(weighed) && Unjudged(weighed)
    ensures DistinctIds(Take(Sort(weighed, ByRanking), k)) && Unjudged(Take(Sort(weighed, ByRanking), k))
  {
    var sorted := Sort(weighed, ByRanking);
    SortKeepsDistinctIds(weighed, ByRanking);
    forall i | 0 <= i < |sorted| ensures Untouched(sorted[i]) {
      assert sorted[i] in multiset(weighed);
    }
  }

  lemma RankedDistinct(w: World, r: Request, text: string, short: seq<Match>, ranked: seq<Match>)
    requires ValidWorld(w) && DistinctIds(short) && NotReranked(short) && Ranked(w, r, text, short, ranked)
    ensures DistinctIds(ranked) && Unjudged(ranked)
  {
    if FeedbackCounts(w, r) {
      var weighed: seq<Match> :| Weighed(w, r, short, weighed)
                                 && ranked == Take(Sort(weighed, ByRanking), Kept(w, r, text));
      WeighedDistinct(w, r, short, weighed);
      SortedDistinct(weighed, Kept(w, r, text));
    } else {
      assert forall i :: 0 <= i < |short| ==> Fresh(short[i]);
    }
  }

  ghost predicate Untouched(m: Match) {
    m.llmScore == None && m.position == None
  }

  ghost predicate Unjudged(ms: seq<Match>) {
    forall i :: 0 <= i < |ms| ==> Untouched(ms[i])
  }

  lemma {:induction false} CandidatesAre(w: World, top: seq<Match>)
    requires DistinctIds(top)
    ensures var candidates := Candidates(top, w.rawData);
            && Readable(w, top, candidates) && DistinctCandidates(candidates)
            && forall c :: c in candidates ==> exists i :: 0 <= i < |top| && top[i].id == c.key
  {
    if top != [] {
      var rest := top[1..];
      CandidatesAre(w, rest);
      assert forall i :: 0 < i < |top| ==> top[i] == rest[i - 1];
      assert forall i :: 0 <= i < |rest| ==> rest[i] == top[i + 1];
      ReadableTail(w, top, Candidates(rest, w.rawData));
    }
  }

  lemma ReadableTail(w: World, top: seq<Match>, candidates: seq<Candidate>)
    requires top != [] && Readable(w, top[1..], candidates)
    ensures var first := if ExternalId(top[0]) in w.rawData
                         then [Candidate(top[0].id, w.rawData[ExternalId(top[0])])] else [];
            Readable(w, top, first + candidates)
  {
    var rest := top[1..];
    var first := if ExternalId(top[0]) in w.rawData
                 then [Candidate(top[0].id, w.rawData[ExternalId(top[0])])] else [];
    forall c ensures c in first + candidates <==> exists i :: 0 <= i < |top| && ReadAs(w, top[i], c) {
      if i :| 0 < i < |top| && ReadAs(w, top[i], c) { assert ReadAs(w, rest[i - 1], c); }
      if i :| 0 <= i < |rest| && ReadAs(w, rest[i], c) { assert ReadAs(w, top[i + 1], c); }
      assert c in first <==> ReadAs(w, top[0], c);
    }
  }

  lemma {:induction false} OwnTexts(w: World, top: seq<Match>)
    ensures Candidates(top, RawData(w, top)) == Candidates(top, w.rawData)
  {
    forall i | 0 <= i < |top|
      ensures ExternalId(top[i]) in RawData(w, top) <==> ExternalId(top[i]) in w.rawData
    {
      assert top[i] in top;
    }
    CandidatesOfOwnRows(top, RawData(w, top), w.rawData);
  }

  lemma JudgedIs(w: World, text: string, ranked: seq<Match>, n: nat)
    requires DistinctIds(ranked) && Unjudged(ranked)
    ensures exists candidates, final ::
              && DistinctCandidates(candidates) && Readable(w, Take(ranked, n), candidates)
              && Judged(w, text, ranked, candidates, final) && Judge(w, text, ranked, n) == WithPositions(final)
  {
    var top := Take(ranked, n);
    var candidates := Candidates(top, w.rawData);
    assert DistinctIds(top);
    CandidatesAre(w, top);
    OwnTexts(w, top);
    LlmStage(ranked, candidates, w.ask(text, candidates));
    var final := LlmRerank(ranked, candidates, w.ask(text, candidates)).matches;
    assert Judged(w, text, ranked, candidates, final);
  }

  lemma PageOf(w: World, r: Request, final: seq<Match>)
    ensures Page(w, r, final, Listed(Take(final, r.topK), w.filterFields, w.round))
  {
  }

  lemma RankedFollows(w: World, r: Request, text: string, filter: PineconeFilter)
    requires ValidWorld(w)
    ensures Ranked(w, r, text, SearchText(w, r, text, Searched(w, r, text), filter),
                   RankedSearch(w, r, text, Kept(w, r, text), filter))
  {
    RankedIs(w, r, text, filter);
    if FeedbackCounts(w, r) {
      var short, prior := SearchText(w, r, text, Searched(w, r, text), filter), WorkspaceStatsOf(w.rows);
      WeighedIs(w, r, short);
      assert Reranked(short, Kept(w, r, text), w.rows, r.config.weights, prior, w.log1p)
          == Take(Sort(ScoreRanking(short, w.rows, r.config.weights, prior, w.log1p), ByRanking), Kept(w, r, text));
    }
  }

  lemma WeighedIs(w: World, r: Request, short: seq<Match>)
    requires ValidWorld(w)
    ensures Weighed(w, r, short, ScoreRanking(short, w.rows, r.config.weights, WorkspaceStatsOf(w.rows), w.log1p))
  {
  }

  /** Without the model the formatter keeps the ranked order. */
  lemma RankedIsKept(w: World, r: Request, text: string, filter: PineconeFilter)
    requires ValidWorld(w)
    requires var short := SearchText(w, r, text, Searched(w, r, text), filter);
             NotReranked(short) && SortedBy(short, ByRetrieval)
    ensures var top := Take(RankedSearch(w, r, text, Kept(w, r, text), filter), r.topK);
            Formatted(top, w.filterFields, w.round) == Listed(top, w.filterFields, w.round)
  {
    var short := SearchText(w, r, text, Searched(w, r, text), filter);
    RankedIs(w, r, text, filter);
    assert forall i :: 0 <= i < |short| ==> Fresh(short[i]);
    if FeedbackCounts(w, r) {
      FormatKeepsReranked(short, Kept(w, r, text), r.topK, w.rows, r.config.weights, WorkspaceStatsOf(w.rows), w.log1p,
                          w.filterFields, w.round);
    } else {
      forall i, j | 0 <= i < j < |short| ensures ByRanking(short[i], short[j]) {
        assert ByRetrieval(short[i], short[j]) && Fresh(short[i]) && Fresh(short[j]);
      }
      FormatKeepsRanking(Take(short, r.topK), w.filterFields, w.round);
    }
  }

  lemma FinalIs(w: World, r: Request, text: string, filter: PineconeFilter)
    requires ValidWorld(w)
    requires var short := SearchText(w, r, text, Searched(w, r, text), filter);
             NotReranked(short) && SortedBy(short, ByRetrieval)
    requires var ranked := RankedSearch(w, r, text, Kept(w, r, text), filter); DistinctIds(ranked) && Unjudged(ranked)
    ensures var ranked := RankedSearch(w, r, text, Kept(w, r, text), filter);
            exists final :: Final(w, r, text, ranked, final)
                            && Search(w, r, text, filter) == Listed(Take(final, r.topK), w.filterFields, w.round)
  {
    var ranked, n := RankedSearch(w, r, text, Kept(w, r, text), filter), Read(w, r, text);
    SearchIs(w, r, text, filter);
    if n == 0 {
      RankedIsKept(w, r, text, filter);
      assert Final(w, r, text, ranked, ranked);
    } else {
      JudgedIs(w, text, ranked, n);
      var candidates, final :|
        && DistinctCandidates(candidates) && Readable(w, Take(ranked, n), candidates)
        && Judged(w, text, ranked, candidates, final) && Judge(w, text, ranked, n) == WithPositions(final);
      FormatKeepsLlmOrder(final, r.topK, w.filterFields, w.round);
      assert Final(w, r, text, ranked, final);
    }
  }

  /** Against a store that answers exactly, a text query gives: of all stored items the best fits to the text leaned
      towards what the user liked, keyword hits boosted; re-ranked by feedback; judged by the model; and of these
      the first `topK`, in that order. */
  lemma TextQueryAnswers(w: World, r: Request, text: string, filter: PineconeFilter, stored: map<string, Vec>)
    requires ValidWorld(w) && IsSqrt(w.sqrt) && Exact(w, text, filter, stored)
    ensures exists v ::
              SearchVector(w, r, text, v) && Answers(w, r, text, filter, stored, v, Search(w, r, text, filter))
  {
    var v := Lean(TasteOf(w, r), w.embed(text), w.sqrt);
    var short := SearchText(w, r, text, Searched(w, r, text), filter);
    var ranked := RankedSearch(w, r, text, Kept(w, r, text), filter);
    LeanedVector(w, r, text);
    ShortlistIs(w, r, text, filter, stored);
    forall i | 0 <= i < |short| ensures Fresh(short[i]) {
      assert Fits(w, r, text, filter, stored, v, short[i]);
    }
    RankedFollows(w, r, text, filter);
    RankedDistinct(w, r, text, short, ranked);
    FinalIs(w, r, text, filter);
    var final :| Final(w, r, text, ranked, final)
                 && Search(w, r, text, filter) == Listed(Take(final, r.topK), w.filterFields, w.round);
    PageOf(w, r, final);
    assert Answers(w, r, text, filter, stored, v, Search(w, r, text, filter));
  }
}
