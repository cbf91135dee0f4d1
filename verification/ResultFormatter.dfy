/** Shaping matches into ranked results (app/services/recommendation/result_formatter.py).
    Rounding of scores is a parameter. */
module ResultFormatter {
  import opened Dicts
  import opened Sorting
  import opened Matches
  import opened Hybrid
  import opened Reranker
  import opened Sequences

  datatype Result = Result(rank: nat, externalId: string, score: real, metadata: map<string, Value>, reason: string)

  predicate AllPositioned(ms: seq<Match>) {
    forall i :: 0 <= i < |ms| ==> ms[i].position.Some?
  }

  function PositionOf(m: Match): nat {
    match m.position case Some(p) => p case None => 0
  }

  predicate ByPosition(a: Match, b: Match) {
    PositionOf(a) <= PositionOf(b)
  }

  /** The LLM stage's positions when it ran, else the best score first. */
  function Ordered(ms: seq<Match>): seq<Match>
  {
    if ms != [] && AllPositioned(ms) then Sort(ms, ByPosition) else Sort(ms, ByRanking)
  }

  function Shape(m: Match, rank: nat, filterFields: set<string>, round: real -> real): Result {
    var shown := map k | k in m.metadata && k in filterFields :: m.metadata[k];
    Result(rank, ExternalId(m), round(m.score), shown, m.llmReason)
  }

  /** Results in the order of `ms`, ranked from 1. */
  function Listed(ms: seq<Match>, filterFields: set<string>, round: real -> real): seq<Result>
  {
    seq(|ms|, i requires 0 <= i < |ms| => Shape(ms[i], i + 1, filterFields, round))
  }

  function Formatted(ms: seq<Match>, filterFields: set<string>, round: real -> real): seq<Result> {
    Listed(Ordered(ms), filterFields, round)
  }

  method FormatResults(ms: seq<Match>, filterFields: set<string>, round: real -> real) returns (results: seq<Result>)
    ensures results == Formatted(ms, filterFields, round)
    ensures |results| == |ms| && forall i :: 0 <= i < |results| ==> results[i].rank == i + 1
  {
    var ordered := Ordered(ms);
    ghost var all := Listed(ordered, filterFields, round);
    results := [];
    var rank := 1;
    for i := 0 to |ordered|
      invariant rank == i + 1
      invariant results == all[..i]
    {
      assert all[..i + 1] == all[..i] + [all[i]];
      results := results + [Shape(ordered[i], rank, filterFields, round)];
      rank := rank + 1;
    }
    assert all[..|all|] == all;
  }

  /** `for position, match in enumerate(outcome.matches): match["position"] = position` */
  function WithPositions(ms: seq<Match>): seq<Match>
  {
    seq(|ms|, i requires 0 <= i < |ms| => ms[i].(position := Some(i)))
  }

  // ---- Every stage's order survives the cut and the formatter ----

  ghost predicate NotPositioned(ms: seq<Match>) {
    forall i :: 0 <= i < |ms| ==> ms[i].position == None
  }

  lemma ListedIgnoresPositions(ms: seq<Match>, k: nat, filterFields: set<string>, round: real -> real)
    ensures Listed(Take(WithPositions(ms), k), filterFields, round) == Listed(Take(ms, k), filterFields, round)
  {
    var a, b := Listed(Take(WithPositions(ms), k), filterFields, round), Listed(Take(ms, k), filterFields, round);
    forall i | 0 <= i < |b| ensures a[i] == b[i] {
      assert b[i] == Shape(ms[i], i + 1, filterFields, round);
    }
  }

  /** After the LLM stage and the cut to `top_k`. */
  lemma FormatKeepsLlmOrder(ms: seq<Match>, k: nat, filterFields: set<string>, round: real -> real)
    ensures Formatted(Take(WithPositions(ms), k), filterFields, round) == Listed(Take(ms, k), filterFields, round)
  {
    var top := Take(WithPositions(ms), k);
    SortOfSorted(top, ByPosition);
    ListedIgnoresPositions(ms, k, filterFields, round);
    assert Ordered(top) == top;
  }

  lemma FormatKeepsRanking(ms: seq<Match>, filterFields: set<string>, round: real -> real)
    requires NotPositioned(ms) && SortedBy(ms, ByRanking)
    ensures Formatted(ms, filterFields, round) == Listed(ms, filterFields, round)
  {
    SortOfSorted(ms, ByRanking);
    assert ms != [] ==> ms[0].position == None;
  }

  lemma FormatKeepsReranked(ms: seq<Match>, topK: nat, k: nat, rows: seq<ItemStats>, w: Weights, prior: WorkspaceStats,
                            log1p: real -> real, filterFields: set<string>, round: real -> real)
    requires IsLog1p(log1p) && NotPositioned(ms)
    ensures var top := Take(Reranked(ms, topK, rows, w, prior, log1p), k);
            Formatted(top, filterFields, round) == Listed(top, filterFields, round)
  {
    var s := ScoreRanking(ms, rows, w, prior, log1p);
    SortSorts(s, ByRanking);
    var r := Sort(s, ByRanking);
    forall i | 0 <= i < |r| ensures r[i].position == None {
      assert r[i] in multiset(s);
    }
    assert SortedBy(Take(Reranked(ms, topK, rows, w, prior, log1p), k), ByRanking);
    FormatKeepsRanking(Take(Reranked(ms, topK, rows, w, prior, log1p), k), filterFields, round);
  }

  /** As retrieval leaves a match. */
  ghost predicate Fresh(m: Match) {
    m.ranking == None && m.llmScore == None && m.llmReason == "" && m.position == None
  }

  ghost predicate NotReranked(ms: seq<Match>) {
    forall i :: 0 <= i < |ms| ==> Fresh(ms[i])
  }

  ghost predicate FreshDict(d: Dict<string, Match>) {
    forall i :: 0 <= i < |d| ==> Fresh(d[i].1)
  }

  lemma {:induction false} FromVectorFresh(ms: seq<Match>)
    requires NotReranked(ms)
    ensures FreshDict(FromVector(ms))
  {
    if ms != [] {
      var last := ms[|ms| - 1];
      assert Fresh(last);
      FromVectorFresh(ms[..|ms| - 1]);
    }
  }

  lemma {:induction false} AddHitsFresh(d: Dict<string, Match>, hits: seq<KeywordMatch>, vectors: map<string, Vec>,
                                        query: Vec, sqrt: real -> real)
    requires SameDimension(vectors, query) && FreshDict(d)
    ensures FreshDict(AddHits(d, hits, vectors, query, sqrt))
    decreases |hits|
  {
    if hits != [] {
      AddHitsFresh(AddHit(d, hits[0], vectors, query, sqrt), hits[1..], vectors, query, sqrt);
    }
  }

  lemma FusedNotReranked(ms: seq<Match>, hits: seq<KeywordMatch>, vectors: map<string, Vec>, query: Vec, weight: real,
                         k: nat, sqrt: real -> real)
    requires SameDimension(vectors, query) && NotReranked(ms)
    ensures NotReranked(Fused(ms, hits, vectors, query, weight, k, sqrt))
  {
    var d := AddHits(FromVector(ms), hits, vectors, query, sqrt);
    FromVectorFresh(ms);
    AddHitsFresh(FromVector(ms), hits, vectors, query, sqrt);
    SortFresh(d, hits, weight);
  }

  lemma SortFresh(d: Dict<string, Match>, hits: seq<KeywordMatch>, weight: real)
    requires FreshDict(d)
    ensures NotReranked(Sort(ScoreAll(d, hits, weight), ByRetrieval))
  {
    var s := ScoreAll(d, hits, weight);
    var r := Sort(s, ByRetrieval);
    forall i | 0 <= i < |r| ensures Fresh(r[i]) {
      assert r[i] in multiset(s);
      var j :| 0 <= j < |s| && s[j] == r[i];
      assert Fresh(d[j].1);
    }
  }

  lemma FormatKeepsFused(ms: seq<Match>, hits: seq<KeywordMatch>, vectors: map<string, Vec>, query: Vec, weight: real,
                         topK: nat, k: nat, sqrt: real -> real, filterFields: set<string>, round: real -> real)
    requires SameDimension(vectors, query) && NotReranked(ms)
    ensures var top := Take(Fused(ms, hits, vectors, query, weight, topK, sqrt), k);
            Formatted(top, filterFields, round) == Listed(top, filterFields, round)
  {
    var s := ScoreAll(AddHits(FromVector(ms), hits, vectors, query, sqrt), hits, weight);
    SortSorts(s, ByRetrieval);
    var r := Fused(ms, hits, vectors, query, weight, topK, sqrt);
    FusedNotReranked(ms, hits, vectors, query, weight, topK, sqrt);
    forall i, j | 0 <= i < j < |r| ensures ByRanking(r[i], r[j]) {
      assert ByRetrieval(r[i], r[j]) && Fresh(r[i]) && Fresh(r[j]);
    }
    assert SortedBy(Take(r, k), ByRanking);
    assert forall i :: 0 <= i < |Take(r, k)| ==> Fresh(r[i]);
    FormatKeepsRanking(Take(r, k), filterFields, round);
  }

  /** A similarity list straight from the store, best first. */
  lemma FormatKeepsSimilarity(ms: seq<Match>, k: nat, filterFields: set<string>, round: real -> real)
    requires NotReranked(ms) && forall i :: 0 <= i < |ms| ==> ms[i].retrieval == None
    requires forall i, j :: 0 <= i < j < |ms| ==> ms[i].score >= ms[j].score
    ensures Formatted(Take(ms, k), filterFields, round) == Listed(Take(ms, k), filterFields, round)
  {
    assert forall i :: 0 <= i < |ms| ==> Fresh(ms[i]);
    FormatKeepsRanking(Take(ms, k), filterFields, round);
  }

  /** The formatter lists what it is given, all of it: by position once every match has one, else best score first. */
  lemma OrderedIs(ms: seq<Match>)
    ensures multiset(Ordered(ms)) == multiset(ms)
    ensures forall i, j :: 0 <= i < j < |Ordered(ms)| ==>
              if forall m :: m in ms ==> m.position.Some?
              then PositionOf(Ordered(ms)[i]) <= PositionOf(Ordered(ms)[j])
              else RankingScore(Ordered(ms)[i]) >= RankingScore(Ordered(ms)[j])
  {
    SortSorts(ms, ByPosition);
    SortSorts(ms, ByRanking);
    assert AllPositioned(ms) <==> forall m :: m in ms ==> m.position.Some?;
    assert SortedBy(Ordered(ms), ByPosition) || SortedBy(Ordered(ms), ByRanking);
  }

  /** A result shows the item's id in the workspace, its similarity rounded, its filter fields and the reason given. */
  ghost predicate Shown(m: Match, rank: nat, filterFields: set<string>, round: real -> real, result: Result) {
    && result.rank == rank && result.score == round(m.score) && result.reason == m.llmReason
    && result.externalId == (if m.externalId == "" then m.id else m.externalId)
    && (forall field :: field in result.metadata <==> field in m.metadata && field in filterFields)
    && forall field :: field in result.metadata ==> result.metadata[field] == m.metadata[field]
  }

  lemma ShapeIsShown(m: Match, rank: nat, filterFields: set<string>, round: real -> real)
    ensures Shown(m, rank, filterFields, round, Shape(m, rank, filterFields, round))
  {
  }

  /** The results are the ordered matches, each shown at its rank. */
  lemma FormattedShows(ms: seq<Match>, filterFields: set<string>, round: real -> real)
    ensures var results := Formatted(ms, filterFields, round);
            |results| == |ms|
            && forall i :: 0 <= i < |ms| ==> Shown(Ordered(ms)[i], i + 1, filterFields, round, results[i])
  {
    forall i | 0 <= i < |ms|
      ensures Shown(Ordered(ms)[i], i + 1, filterFields, round, Formatted(ms, filterFields, round)[i])
    {
      ShapeIsShown(Ordered(ms)[i], i + 1, filterFields, round);
    }
  }
}
