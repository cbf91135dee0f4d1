/** Fusion of vector and keyword results (app/services/recommendation/hybrid.py). */
module Hybrid {
  import opened Dicts
  import opened Arithmetic
  import opened Sorting
  import opened Vectors
  import opened Matches
  import opened Sequences

  function KeywordOnlyIds(vectorMatches: seq<Match>, keywordMatches: seq<KeywordMatch>): seq<string> {
    if keywordMatches == [] then []
    else
      var id := keywordMatches[0].pineconeId;
      (if id in Ids(vectorMatches) then [] else [id]) + KeywordOnlyIds(vectorMatches, keywordMatches[1..])
  }

  /** `max((m.score for m in keyword_matches), default=0.0)` */
  function BestScore(keywordMatches: seq<KeywordMatch>): (r: real)
    ensures forall i :: 0 <= i < |keywordMatches| ==> keywordMatches[i].score <= r
    ensures keywordMatches == [] ==> r == 0.0
    ensures keywordMatches != [] ==> exists i :: 0 <= i < |keywordMatches| && keywordMatches[i].score == r
  {
    if keywordMatches == [] then 0.0
    else if |keywordMatches| == 1 then keywordMatches[0].score
    else
      var rest := BestScore(keywordMatches[1..]);
      assert forall i :: 0 < i < |keywordMatches| ==> keywordMatches[i] == keywordMatches[1..][i - 1];
      if keywordMatches[0].score >= rest then keywordMatches[0].score
      else
        assert exists i :: 0 <= i < |keywordMatches[1..]| && keywordMatches[1..][i].score == rest;
        rest
  }

  /** `boost.get(pinecone_id, 0.0)`: a later hit with the same id replaces an earlier one. */
  function Boost(keywordMatches: seq<KeywordMatch>, best: real, id: string): real
    decreases |keywordMatches|
  {
    if best <= 0.0 || keywordMatches == [] then 0.0
    else
      var last := keywordMatches[|keywordMatches| - 1];
      if last.pineconeId == id then last.score / best
      else Boost(keywordMatches[..|keywordMatches| - 1], best, id)
  }

  /** `{m["id"]: dict(m) for m in vector_matches}` */
  function FromVector(vectorMatches: seq<Match>): Dict<string, Match> {
    if vectorMatches == [] then []
    else
      var last := vectorMatches[|vectorMatches| - 1];
      Put(FromVector(vectorMatches[..|vectorMatches| - 1]), last.id, last)
  }

  function KeywordCandidate(hit: KeywordMatch, vector: Vec, query: Vec, sqrt: real -> real): Match
    requires |vector| == |query|
  {
    Match(hit.pineconeId, Cosine(query, vector, sqrt), hit.externalId, hit.metadata, None, None, None, "", None)
  }

  ghost predicate SameDimension(vectors: map<string, Vec>, query: Vec) {
    forall id :: id in vectors ==> |vectors[id]| == |query|
  }

  /** One turn of the loop over keyword hits. */
  function AddHit(merged: Dict<string, Match>, hit: KeywordMatch, vectors: map<string, Vec>, query: Vec,
                  sqrt: real -> real): Dict<string, Match>
    requires SameDimension(vectors, query)
  {
    if HasKey(merged, hit.pineconeId) || hit.pineconeId !in vectors then merged
    else Put(merged, hit.pineconeId, KeywordCandidate(hit, vectors[hit.pineconeId], query, sqrt))
  }

  function AddHits(merged: Dict<string, Match>, hits: seq<KeywordMatch>, vectors: map<string, Vec>, query: Vec,
                   sqrt: real -> real): Dict<string, Match>
    requires SameDimension(vectors, query)
    decreases |hits|
  {
    if hits == [] then merged
    else AddHits(AddHit(merged, hits[0], vectors, query, sqrt), hits[1..], vectors, query, sqrt)
  }

  function Scored(m: Match, id: string, hits: seq<KeywordMatch>, weight: real): Match {
    m.(retrieval := Some(m.score + Times(weight, Boost(hits, BestScore(hits), id))))
  }

  function ScoreAll(merged: Dict<string, Match>, hits: seq<KeywordMatch>, weight: real): seq<Match>
  {
    seq(|merged|, i requires 0 <= i < |merged| => Scored(merged[i].1, merged[i].0, hits, weight))
  }

  /** What the search ranked by: the fused score, else the similarity. */
  function RetrievalScore(m: Match): real {
    match m.retrieval case Some(s) => s case None => m.score
  }

  predicate ByRetrieval(a: Match, b: Match) {
    RetrievalScore(a) >= RetrievalScore(b)
  }

  function Fused(vectorMatches: seq<Match>, hits: seq<KeywordMatch>, vectors: map<string, Vec>, query: Vec,
                 weight: real, k: nat, sqrt: real -> real): seq<Match>
    requires SameDimension(vectors, query)
  {
    var merged := AddHits(FromVector(vectorMatches), hits, vectors, query, sqrt);
    Take(Sort(ScoreAll(merged, hits, weight), ByRetrieval), k)
  }

  method Fuse(vectorMatches: seq<Match>, hits: seq<KeywordMatch>, vectors: map<string, Vec>, query: Vec,
              weight: real, k: nat, sqrt: real -> real) returns (r: seq<Match>)
    requires SameDimension(vectors, query)
    ensures r == Fused(vectorMatches, hits, vectors, query, weight, k, sqrt)
  {
    var best := BestScore(hits);
    var merged: Dict<string, Match> := [];
    for i := 0 to |vectorMatches|
      invariant merged == FromVector(vectorMatches[..i])
    {
      assert vectorMatches[..i + 1][..i] == vectorMatches[..i];
      merged := Put(merged, vectorMatches[i].id, vectorMatches[i]);
    }
    assert vectorMatches[..|vectorMatches|] == vectorMatches;
    for i := 0 to |hits|
      invariant AddHits(merged, hits[i..], vectors, query, sqrt)
             == AddHits(FromVector(vectorMatches), hits, vectors, query, sqrt)
    {
      var hit := hits[i];
      AddHitsTurn(merged, hits, i, vectors, query, sqrt);
      if HasKey(merged, hit.pineconeId) { continue; }
      if hit.pineconeId !in vectors { continue; }
      merged := Put(merged, hit.pineconeId, KeywordCandidate(hit, vectors[hit.pineconeId], query, sqrt));
    }
    var candidates: seq<Match> := [];
    for i := 0 to |merged|
      invariant candidates == ScoreAll(merged, hits, weight)[..i]
    {
      var (id, candidate) := merged[i];
      ScoreTurn(merged, hits, weight, i);
      var retrieval := candidate.score + Times(weight, Boost(hits, best, id));
      candidates := candidates + [candidate.(retrieval := Some(retrieval))];
    }
    assert candidates == ScoreAll(merged, hits, weight);
    r := Take(Sort(candidates, ByRetrieval), k);
  }

  lemma AddHitsTurn(merged: Dict<string, Match>, hits: seq<KeywordMatch>, i: nat, vectors: map<string, Vec>,
                    query: Vec, sqrt: real -> real)
    requires SameDimension(vectors, query) && i < |hits|
    ensures AddHits(merged, hits[i..], vectors, query, sqrt)
         == AddHits(AddHit(merged, hits[i], vectors, query, sqrt), hits[i + 1..], vectors, query, sqrt)
  {
    assert hits[i..][1..] == hits[i + 1..];
  }

  lemma ScoreTurn(merged: Dict<string, Match>, hits: seq<KeywordMatch>, weight: real, i: nat)
    requires i < |merged|
    ensures var all := ScoreAll(merged, hits, weight);
            |all| == |merged| && all[..i + 1] == all[..i] + [Scored(merged[i].1, merged[i].0, hits, weight)]
  {
  }

  // ---- What the two lists are ----

  /** A catalogue is the stored vectors of a namespace, by id. */
  ghost predicate InCatalogue(m: Match, catalogue: map<string, Vec>, query: Vec, sqrt: real -> real)
    requires SameDimension(catalogue, query)
  {
    m.id in catalogue && m.score == Cosine(query, catalogue[m.id], sqrt)
  }

  /** Vector search returns the `k` most similar items, or all of them. */
  ghost predicate IsVectorTopK(ms: seq<Match>, catalogue: map<string, Vec>, query: Vec, k: nat, sqrt: real -> real)
    requires SameDimension(catalogue, query)
  {
    && DistinctIds(ms)
    && (forall i :: 0 <= i < |ms| ==> InCatalogue(ms[i], catalogue, query, sqrt))
    && |ms| == (if k <= |catalogue| then k else |catalogue|)
    && forall id, i :: id in catalogue && id !in Ids(ms) && 0 <= i < |ms| ==>
         Cosine(query, catalogue[id], sqrt) <= ms[i].score
  }

  /** Keyword scores are not negative. */
  ghost predicate IsKeywordList(hits: seq<KeywordMatch>) {
    forall i :: 0 <= i < |hits| ==> hits[i].score >= 0.0
  }

  /** `fetch_vectors` leaves out ids whose vector is gone. */
  ghost predicate Fetched(vectors: map<string, Vec>, ids: seq<string>, catalogue: map<string, Vec>) {
    forall id :: (id in vectors <==> id in ids && id in catalogue) && (id in vectors ==> vectors[id] == catalogue[id])
  }

  function FullScore(id: string, catalogue: map<string, Vec>, hits: seq<KeywordMatch>, query: Vec, weight: real,
                     sqrt: real -> real): real
    requires SameDimension(catalogue, query) && id in catalogue
  {
    Cosine(query, catalogue[id], sqrt) + Times(weight, Boost(hits, BestScore(hits), id))
  }

  /** A result: a stored item with its similarity and its fused score. */
  ghost predicate IsResult(m: Match, catalogue: map<string, Vec>, hits: seq<KeywordMatch>, query: Vec, weight: real,
                           sqrt: real -> real)
    requires SameDimension(catalogue, query)
  {
    && InCatalogue(m, catalogue, query, sqrt)
    && m.retrieval == Some(FullScore(m.id, catalogue, hits, query, weight, sqrt))
  }

  // ---- The merged dictionary ----

  ghost predicate MergedFrom(d: Dict<string, Match>, catalogue: map<string, Vec>, query: Vec, sqrt: real -> real)
    requires SameDimension(catalogue, query)
  {
    && DistinctKeys(d)
    && forall i :: 0 <= i < |d| ==> d[i].0 == d[i].1.id && InCatalogue(d[i].1, catalogue, query, sqrt)
  }

  lemma {:induction false} FromVectorMerged(ms: seq<Match>, catalogue: map<string, Vec>, query: Vec, sqrt: real -> real)
    requires SameDimension(catalogue, query)
    requires forall i :: 0 <= i < |ms| ==> InCatalogue(ms[i], catalogue, query, sqrt)
    ensures MergedFrom(FromVector(ms), catalogue, query, sqrt)
    ensures forall i :: 0 <= i < |ms| ==> HasKey(FromVector(ms), ms[i].id)
  {
    if ms != [] {
      var front, last := ms[..|ms| - 1], ms[|ms| - 1];
      FromVectorMerged(front, catalogue, query, sqrt);
      PutKeepsDistinct(FromVector(front), last.id, last);
      forall i | 0 <= i < |ms| ensures HasKey(FromVector(ms), ms[i].id) {
        GetAfterPut(FromVector(front), last.id, last, ms[i].id);
        if i < |front| { assert HasKey(FromVector(front), front[i].id); }
      }
    }
  }

  lemma {:induction false} AddHitsMerged(d: Dict<string, Match>, hits: seq<KeywordMatch>, vectors: map<string, Vec>,
                                         catalogue: map<string, Vec>, query: Vec, sqrt: real -> real)
    requires SameDimension(catalogue, query) && SameDimension(vectors, query)
    requires forall id :: id in vectors ==> id in catalogue && vectors[id] == catalogue[id]
    requires MergedFrom(d, catalogue, query, sqrt)
    ensures var r := AddHits(d, hits, vectors, query, sqrt);
            && MergedFrom(r, catalogue, query, sqrt)
            && (forall key :: HasKey(d, key) ==> HasKey(r, key))
            && forall i :: 0 <= i < |hits| && hits[i].pineconeId in vectors ==> HasKey(r, hits[i].pineconeId)
    decreases |hits|
  {
    if hits != [] {
      var hit := hits[0];
      var next := AddHit(d, hit, vectors, query, sqrt);
      if next != d {
        var candidate := KeywordCandidate(hit, vectors[hit.pineconeId], query, sqrt);
        PutKeepsDistinct(d, hit.pineconeId, candidate);
        forall key | HasKey(d, key) || key == hit.pineconeId ensures HasKey(next, key) {
          GetAfterPut(d, hit.pineconeId, candidate, key);
        }
      }
      AddHitsMerged(next, hits[1..], vectors, catalogue, query, sqrt);
      assert forall i :: 0 < i < |hits| ==> hits[i] == hits[1..][i - 1];
    }
  }

  lemma {:induction false} KeywordOnlyIdsComplete(ms: seq<Match>, hits: seq<KeywordMatch>, i: nat)
    requires i < |hits|
    ensures hits[i].pineconeId in Ids(ms) || hits[i].pineconeId in KeywordOnlyIds(ms, hits)
  {
    if i > 0 { KeywordOnlyIdsComplete(ms, hits[1..], i - 1); }
  }

  /** Every hit still stored is merged, by vector search or through its fetched vector. */
  lemma {:induction false} MergedContains(ms: seq<Match>, hits: seq<KeywordMatch>, vectors: map<string, Vec>,
                                          catalogue: map<string, Vec>, query: Vec, sqrt: real -> real)
    requires SameDimension(catalogue, query) && SameDimension(vectors, query)
    requires forall i :: 0 <= i < |ms| ==> InCatalogue(ms[i], catalogue, query, sqrt)
    requires Fetched(vectors, KeywordOnlyIds(ms, hits), catalogue)
    ensures var d := AddHits(FromVector(ms), hits, vectors, query, sqrt);
            && MergedFrom(d, catalogue, query, sqrt)
            && (forall id :: id in Ids(ms) ==> HasKey(d, id))
            && forall i :: 0 <= i < |hits| && hits[i].pineconeId in catalogue ==> HasKey(d, hits[i].pineconeId)
  {
    FromVectorMerged(ms, catalogue, query, sqrt);
    AddHitsMerged(FromVector(ms), hits, vectors, catalogue, query, sqrt);
    forall i | 0 <= i < |hits| && hits[i].pineconeId in catalogue
      ensures HasKey(AddHits(FromVector(ms), hits, vectors, query, sqrt), hits[i].pineconeId)
    {
      KeywordOnlyIdsComplete(ms, hits, i);
    }
  }

  lemma {:induction false} BoostSign(hits: seq<KeywordMatch>, best: real, id: string)
    requires IsKeywordList(hits)
    ensures Boost(hits, best, id) >= 0.0
    ensures (forall i :: 0 <= i < |hits| ==> hits[i].pineconeId != id) ==> Boost(hits, best, id) == 0.0
    decreases |hits|
  {
    if best > 0.0 && hits != [] {
      var last := hits[|hits| - 1];
      Reciprocal(best);
      Divide(last.score, best);
      Positive(1.0 / best, last.score);
      BoostSign(hits[..|hits| - 1], best, id);
    }
  }

  /** The last hit naming the item. */
  ghost predicate LastHit(hits: seq<KeywordMatch>, id: string, i: nat) {
    i < |hits| && hits[i].pineconeId == id && forall j :: i < j < |hits| ==> hits[j].pineconeId != id
  }

  /** An item's boost is the score of the last hit naming it over the largest score, so between 0 and 1; there is
      none without a hit, or when no hit scores above 0. */
  lemma {:induction false} BoostIs(hits: seq<KeywordMatch>, best: real, id: string)
    ensures best <= 0.0 || (forall i :: 0 <= i < |hits| ==> hits[i].pineconeId != id) ==> Boost(hits, best, id) == 0.0
    ensures best > 0.0 ==> forall i: nat :: LastHit(hits, id, i) ==> Times(Boost(hits, best, id), best) == hits[i].score
    decreases |hits|
  {
    if best > 0.0 && hits != [] {
      var front, last := hits[..|hits| - 1], hits[|hits| - 1];
      BoostIs(front, best, id);
      Divide(last.score, best);
      forall i: nat | LastHit(hits, id, i)
        ensures Times(Boost(hits, best, id), best) == hits[i].score
      {
        if i < |front| { assert LastHit(front, id, i); }
      }
    }
  }

  lemma {:induction false} BoostInUnit(hits: seq<KeywordMatch>, id: string)
    requires IsKeywordList(hits)
    ensures 0.0 <= Boost(hits, BestScore(hits), id) <= 1.0
  {
    var best := BestScore(hits);
    BoostSign(hits, best, id);
    BoostIs(hits, best, id);
    if best > 0.0 && exists i :: 0 <= i < |hits| && hits[i].pineconeId == id {
      LastHitExists(hits, id);
      var i: nat :| LastHit(hits, id, i);
      Commute(best, Boost(hits, best, id));
      assert Times(best, 1.0) == best;
      Larger(best, 1.0, Boost(hits, best, id));
    }
  }

  lemma {:induction false} LastHitExists(hits: seq<KeywordMatch>, id: string)
    requires exists i :: 0 <= i < |hits| && hits[i].pineconeId == id
    ensures exists i: nat :: LastHit(hits, id, i)
    decreases |hits|
  {
    var front := hits[..|hits| - 1];
    if hits[|hits| - 1].pineconeId == id {
      assert LastHit(hits, id, |hits| - 1);
    } else {
      LastHitExists(front, id);
      var i: nat :| LastHit(front, id, i);
      assert LastHit(hits, id, i);
    }
  }

  // ---- Where a fused match comes from ----

  /** A vector match, its fused score apart; else what the first hit naming the item says of it. */
  ghost predicate Sourced(m: Match, ms: seq<Match>, hits: seq<KeywordMatch>) {
    || (exists i :: 0 <= i < |ms| && m == ms[i].(retrieval := m.retrieval))
    || (m.id !in Ids(ms) && exists i: nat :: FirstHit(hits, m.id, i) && SaidBy(m, hits[i]))
  }

  ghost predicate FirstHit(hits: seq<KeywordMatch>, id: string, i: nat) {
    i < |hits| && hits[i].pineconeId == id && forall j :: 0 <= j < i ==> hits[j].pineconeId != id
  }

  ghost predicate SaidBy(m: Match, hit: KeywordMatch) {
    && m.externalId == hit.externalId && m.metadata == hit.metadata
    && m.ranking == None && m.llmScore == None && m.llmReason == "" && m.position == None
  }

  ghost predicate AllSourced(d: Dict<string, Match>, ms: seq<Match>, hits: seq<KeywordMatch>) {
    && DistinctKeys(d) && (forall id :: id in Ids(ms) ==> HasKey(d, id))
    && forall i :: 0 <= i < |d| ==> d[i].0 == d[i].1.id && Sourced(d[i].1, ms, hits)
  }

  ghost predicate KeyedFrom(d: Dict<string, Match>, ms: seq<Match>) {
    forall i :: 0 <= i < |d| ==> d[i].0 == d[i].1.id && d[i].1 in ms
  }

  lemma {:induction false} FromVectorKeyed(ms: seq<Match>)
    ensures DistinctKeys(FromVector(ms)) && KeyedFrom(FromVector(ms), ms)
    ensures forall id :: id in Ids(ms) ==> HasKey(FromVector(ms), id)
  {
    if ms != [] {
      var front, last := ms[..|ms| - 1], ms[|ms| - 1];
      FromVectorKeyed(front);
      PutKeepsDistinct(FromVector(front), last.id, last);
      assert forall m :: m in ms <==> m in front || m == last by { assert ms == front + [last]; }
      forall id | id in Ids(ms) ensures HasKey(FromVector(ms), id) {
        GetAfterPut(FromVector(front), last.id, last, id);
      }
    }
  }

  lemma FromVectorSourced(ms: seq<Match>, hits: seq<KeywordMatch>)
    ensures AllSourced(FromVector(ms), ms, hits)
  {
    FromVectorKeyed(ms);
    var d := FromVector(ms);
    forall i | 0 <= i < |d| ensures Sourced(d[i].1, ms, hits) {
      var j :| 0 <= j < |ms| && ms[j] == d[i].1;
      assert d[i].1 == ms[j].(retrieval := d[i].1.retrieval);
    }
  }

  lemma {:induction false} AddHitsSourced(d: Dict<string, Match>, ms: seq<Match>, hits: seq<KeywordMatch>, n: nat,
                                          vectors: map<string, Vec>, query: Vec, sqrt: real -> real)
    requires SameDimension(vectors, query) && n <= |hits| && AllSourced(d, ms, hits)
    requires forall j :: 0 <= j < n && hits[j].pineconeId in vectors ==> HasKey(d, hits[j].pineconeId)
    ensures AllSourced(AddHits(d, hits[n..], vectors, query, sqrt), ms, hits)
    decreases |hits| - n
  {
    if n < |hits| {
      var hit := hits[n];
      var next := AddHit(d, hit, vectors, query, sqrt);
      assert hits[n..][1..] == hits[n + 1..];
      AddHitSourced(d, ms, hits, n, vectors, query, sqrt);
      AddHitsSourced(next, ms, hits, n + 1, vectors, query, sqrt);
    }
  }

  lemma {:induction false} AddHitSourced(d: Dict<string, Match>, ms: seq<Match>, hits: seq<KeywordMatch>, n: nat,
                                         vectors: map<string, Vec>, query: Vec, sqrt: real -> real)
    requires SameDimension(vectors, query) && n < |hits| && AllSourced(d, ms, hits)
    requires forall j :: 0 <= j < n && hits[j].pineconeId in vectors ==> HasKey(d, hits[j].pineconeId)
    ensures var next := AddHit(d, hits[n], vectors, query, sqrt);
            && AllSourced(next, ms, hits)
            && forall j :: 0 <= j <= n && hits[j].pineconeId in vectors ==> HasKey(next, hits[j].pineconeId)
  {
    var hit, next := hits[n], AddHit(d, hits[n], vectors, query, sqrt);
    if next != d {
      var m := KeywordCandidate(hit, vectors[hit.pineconeId], query, sqrt);
      PutKeepsDistinct(d, hit.pineconeId, m);
      forall key ensures HasKey(next, key) <==> HasKey(d, key) || key == hit.pineconeId {
        GetAfterPut(d, hit.pineconeId, m, key);
      }
      assert FirstHit(hits, m.id, n) && SaidBy(m, hit);
      assert next == d + [(hit.pineconeId, m)];
    }
  }

  /** Every fused match is a vector match with its fused score, or says of its item what the first keyword hit for
      it says. */
  lemma {:induction false} FusedIsSourced(ms: seq<Match>, hits: seq<KeywordMatch>, vectors: map<string, Vec>,
                                          query: Vec, weight: real, k: nat, sqrt: real -> real)
    requires SameDimension(vectors, query)
    ensures forall m :: m in Fused(ms, hits, vectors, query, weight, k, sqrt) ==> Sourced(m, ms, hits)
  {
    FromVectorSourced(ms, hits);
    var d := AddHits(FromVector(ms), hits, vectors, query, sqrt);
    assert hits[0..] == hits;
    AddHitsSourced(FromVector(ms), ms, hits, 0, vectors, query, sqrt);
    SortedIsSourced(d, ms, hits, weight);
  }

  lemma SortedIsSourced(d: Dict<string, Match>, ms: seq<Match>, hits: seq<KeywordMatch>, weight: real)
    requires AllSourced(d, ms, hits)
    ensures forall m :: m in Sort(ScoreAll(d, hits, weight), ByRetrieval) ==> Sourced(m, ms, hits)
  {
    var s := ScoreAll(d, hits, weight);
    forall m | m in Sort(s, ByRetrieval) ensures Sourced(m, ms, hits) {
      assert m in multiset(Sort(s, ByRetrieval));
      var i :| 0 <= i < |s| && s[i] == m;
      RescoredIsSourced(d[i].1, m, ms, hits);
    }
  }

  lemma {:induction false} RescoredIsSourced(m: Match, scored: Match, ms: seq<Match>, hits: seq<KeywordMatch>)
    requires Sourced(m, ms, hits) && scored == m.(retrieval := scored.retrieval)
    ensures Sourced(scored, ms, hits)
  {
    if i :| 0 <= i < |ms| && m == ms[i].(retrieval := m.retrieval) {
      assert scored == ms[i].(retrieval := scored.retrieval);
    } else {
      var i: nat :| FirstHit(hits, m.id, i) && SaidBy(m, hits[i]);
      assert FirstHit(hits, scored.id, i) && SaidBy(scored, hits[i]);
    }
  }

  // ---- Top-k of the whole catalogue ----

  /** The candidates in fused order. */
  function Ranking(ms: seq<Match>, hits: seq<KeywordMatch>, vectors: map<string, Vec>, query: Vec, weight: real,
                   sqrt: real -> real): seq<Match>
    requires SameDimension(vectors, query)
  {
    Sort(ScoreAll(AddHits(FromVector(ms), hits, vectors, query, sqrt), hits, weight), ByRetrieval)
  }

  lemma {:induction false} SortKeepsDistinctIds(s: seq<Match>, ordered: (Match, Match) -> bool)
    requires DistinctIds(s)
    ensures DistinctIds(Sort(s, ordered)) && Ids(Sort(s, ordered)) == Ids(s)
  {
    var r := Sort(s, ordered);
    SameMembers(r, s);
    CountIds(s);
    if !DistinctIds(r) {
      var i, j :| 0 <= i < j < |r| && r[i].id == r[j].id;
      RepeatedIdCounts(r, i, j);
    }
  }

  lemma SameMembers(r: seq<Match>, s: seq<Match>)
    requires multiset(r) == multiset(s)
    ensures Ids(r) == Ids(s) && |r| == |s|
  {
    forall m ensures m in r <==> m in s {
      assert m in multiset(r) <==> m in multiset(s);
    }
    assert |multiset(r)| == |r| && |multiset(s)| == |s|;
  }

  lemma RepeatedIdCounts(r: seq<Match>, i: nat, j: nat)
    requires i < j < |r| && r[i].id == r[j].id
    ensures |Ids(r)| < |r|
  {
    var rest := r[..j] + r[j + 1..];
    assert r == r[..j] + [r[j]] + r[j + 1..];
    assert rest[i] == r[i];
    assert Ids(r) == Ids(rest) by {
      forall m | m in r ensures m.id in Ids(rest) {
        assert m in rest || m == r[j];
        assert rest[i] in rest;
      }
      forall m | m in rest ensures m.id in Ids(r) {}
    }
    CountIds(rest);
  }

  lemma {:induction false} RankingFacts(ms: seq<Match>, hits: seq<KeywordMatch>, vectors: map<string, Vec>,
                                        catalogue: map<string, Vec>, query: Vec, weight: real, sqrt: real -> real)
    requires SameDimension(catalogue, query) && SameDimension(vectors, query)
    requires forall i :: 0 <= i < |ms| ==> InCatalogue(ms[i], catalogue, query, sqrt)
    requires Fetched(vectors, KeywordOnlyIds(ms, hits), catalogue)
    ensures var r := Ranking(ms, hits, vectors, query, weight, sqrt);
            && DistinctIds(r) && SortedBy(r, ByRetrieval)
            && (forall i :: 0 <= i < |r| ==> IsResult(r[i], catalogue, hits, query, weight, sqrt))
            && Ids(ms) <= Ids(r)
            && forall i :: 0 <= i < |hits| && hits[i].pineconeId in catalogue ==> hits[i].pineconeId in Ids(r)
  {
    var d := AddHits(FromVector(ms), hits, vectors, query, sqrt);
    MergedContains(ms, hits, vectors, catalogue, query, sqrt);
    var s := ScoreAll(d, hits, weight);
    ScoreAllResults(d, hits, catalogue, query, weight, sqrt);
    SortSorts(s, ByRetrieval);
    SortKeepsDistinctIds(s, ByRetrieval);
    SortKeepsResults(s, hits, catalogue, query, weight, sqrt);
  }

  lemma ScoreAllResults(d: Dict<string, Match>, hits: seq<KeywordMatch>, catalogue: map<string, Vec>, query: Vec,
                        weight: real, sqrt: real -> real)
    requires SameDimension(catalogue, query) && MergedFrom(d, catalogue, query, sqrt)
    ensures var s := ScoreAll(d, hits, weight);
            && DistinctIds(s)
            && (forall i :: 0 <= i < |s| ==> IsResult(s[i], catalogue, hits, query, weight, sqrt))
            && forall key :: HasKey(d, key) ==> key in Ids(s)
  {
    var s := ScoreAll(d, hits, weight);
    forall key | HasKey(d, key) ensures key in Ids(s) {
      var i := GetWitness(d, key);
      assert s[i] in s;
    }
  }

  lemma {:induction false} SortKeepsResults(s: seq<Match>, hits: seq<KeywordMatch>, catalogue: map<string, Vec>,
                                            query: Vec, weight: real, sqrt: real -> real)
    requires SameDimension(catalogue, query)
    requires forall i :: 0 <= i < |s| ==> IsResult(s[i], catalogue, hits, query, weight, sqrt)
    ensures var r := Sort(s, ByRetrieval);
            forall i :: 0 <= i < |r| ==> IsResult(r[i], catalogue, hits, query, weight, sqrt)
  {
    var r := Sort(s, ByRetrieval);
    forall i | 0 <= i < |r| ensures IsResult(r[i], catalogue, hits, query, weight, sqrt) {
      assert r[i] in multiset(s);
    }
  }

  /** If at least `k` ids score `c` or more, so does every one of the first `k`. */
  lemma TopKHoldsLargest(r: seq<Match>, ids: set<string>, k: nat, c: real, j: nat)
    requires SortedBy(r, ByRetrieval) && DistinctIds(r) && ids <= Ids(r) && |ids| >= k && j < k && j < |r|
    requires forall i :: 0 <= i < |r| && r[i].id in ids ==> RetrievalScore(r[i]) >= c
    ensures RetrievalScore(r[j]) >= c
  {
    if RetrievalScore(r[j]) < c {
      forall id | id in ids ensures id in Ids(r[..j]) {
        var m :| m in r && m.id == id;
        var i :| 0 <= i < |r| && r[i] == m;
        assert j < i ==> ByRetrieval(r[j], r[i]);
        assert i < j;
        assert r[..j][i] == m;
      }
      CountIds(r[..j]);
      SubsetCount(ids, Ids(r[..j]));
    }
  }

  /** A keyword boost only adds. */
  lemma FullScoreLifts(id: string, catalogue: map<string, Vec>, hits: seq<KeywordMatch>, query: Vec, weight: real,
                       sqrt: real -> real)
    requires SameDimension(catalogue, query) && id in catalogue && weight >= 0.0 && IsKeywordList(hits)
    ensures FullScore(id, catalogue, hits, query, weight, sqrt) >= Cosine(query, catalogue[id], sqrt)
    ensures (forall i :: 0 <= i < |hits| ==> hits[i].pineconeId != id) ==>
              FullScore(id, catalogue, hits, query, weight, sqrt) == Cosine(query, catalogue[id], sqrt)
  {
    BoostSign(hits, BestScore(hits), id);
    NonNegative(weight, Boost(hits, BestScore(hits), id));
    assert Times(weight, 0.0) == 0.0;
  }

  /** The vector matches all score at least the similarity of an item they leave out. */
  lemma VectorMatchesLead(ms: seq<Match>, m: Match, hits: seq<KeywordMatch>, catalogue: map<string, Vec>, query: Vec,
                          weight: real, k: nat, sqrt: real -> real, x: string)
    requires SameDimension(catalogue, query) && weight >= 0.0
    requires IsVectorTopK(ms, catalogue, query, k, sqrt) && IsKeywordList(hits)
    requires x in catalogue && x !in Ids(ms) && m.id in Ids(ms) && IsResult(m, catalogue, hits, query, weight, sqrt)
    ensures RetrievalScore(m) >= Cosine(query, catalogue[x], sqrt)
  {
    var v :| v in ms && v.id == m.id;
    FullScoreLifts(m.id, catalogue, hits, query, weight, sqrt);
  }

  lemma OutsideRanking(ms: seq<Match>, r: seq<Match>, hits: seq<KeywordMatch>, catalogue: map<string, Vec>,
                       query: Vec, weight: real, k: nat, sqrt: real -> real, x: string, j: nat)
    requires SameDimension(catalogue, query) && weight >= 0.0
    requires IsVectorTopK(ms, catalogue, query, k, sqrt) && IsKeywordList(hits)
    requires DistinctIds(r) && SortedBy(r, ByRetrieval) && Ids(ms) <= Ids(r)
    requires forall i :: 0 <= i < |r| ==> IsResult(r[i], catalogue, hits, query, weight, sqrt)
    requires forall i :: 0 <= i < |hits| && hits[i].pineconeId in catalogue ==> hits[i].pineconeId in Ids(r)
    requires x in catalogue && x !in Ids(r) && j < k && j < |r|
    ensures FullScore(x, catalogue, hits, query, weight, sqrt) <= RetrievalScore(r[j])
  {
    FullScoreLifts(x, catalogue, hits, query, weight, sqrt);
    CountIds(ms);
    SubsetCount(Ids(ms) + {x}, catalogue.Keys);
    assert |Ids(ms) + {x}| == |Ids(ms)| + 1;
    forall i | 0 <= i < |r| && r[i].id in Ids(ms)
      ensures RetrievalScore(r[i]) >= Cosine(query, catalogue[x], sqrt)
    {
      VectorMatchesLead(ms, r[i], hits, catalogue, query, weight, k, sqrt, x);
    }
    TopKHoldsLargest(r, Ids(ms), k, Cosine(query, catalogue[x], sqrt), j);
  }

  /** Fusing the true top `k` by similarity with a keyword list gives the true top `k` of the whole
      catalogue by similarity plus weighted keyword boost: `min(k, N)` distinct stored items, best
      first, each with its similarity as `score`, and no item left out scores higher. Keyword hits
      whose vector is gone are not in the catalogue. */
  lemma {:induction false} FusionLosesNothing(ms: seq<Match>, hits: seq<KeywordMatch>, vectors: map<string, Vec>,
                                              catalogue: map<string, Vec>, query: Vec, weight: real, k: nat,
                                              sqrt: real -> real)
    requires SameDimension(catalogue, query) && SameDimension(vectors, query) && weight >= 0.0
    requires IsVectorTopK(ms, catalogue, query, k, sqrt) && IsKeywordList(hits)
    requires Fetched(vectors, KeywordOnlyIds(ms, hits), catalogue)
    ensures var r := Fused(ms, hits, vectors, query, weight, k, sqrt);
            && |r| == (if k <= |catalogue| then k else |catalogue|)
            && DistinctIds(r) && SortedBy(r, ByRetrieval)
            && (forall i :: 0 <= i < |r| ==> IsResult(r[i], catalogue, hits, query, weight, sqrt))
            && forall x, i :: x in catalogue && x !in Ids(r) && 0 <= i < |r| ==>
                 FullScore(x, catalogue, hits, query, weight, sqrt) <= RetrievalScore(r[i])
  {
    var all := Ranking(ms, hits, vectors, query, weight, sqrt);
    RankingFacts(ms, hits, vectors, catalogue, query, weight, sqrt);
    RankingSize(ms, all, catalogue, query, k, sqrt);
    var r := Take(all, k);
    forall x, i | x in catalogue && x !in Ids(r) && 0 <= i < |r|
      ensures FullScore(x, catalogue, hits, query, weight, sqrt) <= RetrievalScore(r[i])
    {
      if x in Ids(all) {
        CutOff(all, k, x, i, catalogue, hits, query, weight, sqrt);
      } else {
        OutsideRanking(ms, all, hits, catalogue, query, weight, k, sqrt, x, i);
      }
    }
  }

  lemma RankingSize(ms: seq<Match>, r: seq<Match>, catalogue: map<string, Vec>, query: Vec, k: nat, sqrt: real -> real)
    requires SameDimension(catalogue, query) && IsVectorTopK(ms, catalogue, query, k, sqrt)
    requires DistinctIds(r) && Ids(ms) <= Ids(r)
    requires forall i :: 0 <= i < |r| ==> InCatalogue(r[i], catalogue, query, sqrt)
    ensures |Take(r, k)| == if k <= |catalogue| then k else |catalogue|
  {
    CountIds(ms);
    CountIds(r);
    SubsetCount(Ids(ms), Ids(r));
    SubsetCount(Ids(r), catalogue.Keys);
  }

  lemma CutOff(all: seq<Match>, k: nat, x: string, i: nat, catalogue: map<string, Vec>, hits: seq<KeywordMatch>,
               query: Vec, weight: real, sqrt: real -> real)
    requires SameDimension(catalogue, query) && SortedBy(all, ByRetrieval)
    requires forall i :: 0 <= i < |all| ==> IsResult(all[i], catalogue, hits, query, weight, sqrt)
    requires x in Ids(all) && x !in Ids(Take(all, k)) && i < |Take(all, k)|
    ensures x in catalogue && FullScore(x, catalogue, hits, query, weight, sqrt) <= RetrievalScore(all[i])
  {
    var m :| m in all && m.id == x;
    var j :| 0 <= j < |all| && all[j] == m;
    var top := Take(all, k);
    assert forall t :: 0 <= t < |top| ==> all[t] == top[t] && top[t] in top;
    assert ByRetrieval(all[i], all[j]);
  }
}
