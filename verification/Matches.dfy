/** The candidates every ranking stage passes on: Pinecone matches with the fields the stages
    add, and JSON-like values for their metadata. */
module Matches {
  import opened Dicts

  datatype Value =
    | Null
    | Bool(b: bool)
    | Num(n: real)
    | Str(s: string)
    | List(items: seq<Value>)

  /** `externalId` is the metadata's `external_id`, "" when it is missing. `retrieval`, `ranking`,
      `llmScore` and `position` are set by hybrid search, the reranker and the LLM stage. */
  datatype Match = Match(
    id: string,
    score: real,
    externalId: string,
    metadata: map<string, Value>,
    retrieval: Option<real>,
    ranking: Option<real>,
    llmScore: Option<int>,
    llmReason: string,
    position: Option<nat>)

  datatype KeywordMatch = KeywordMatch(
    externalId: string, pineconeId: string, score: real, metadata: map<string, Value>)

  /** `metadata.external_id or id` */
  function ExternalId(m: Match): string {
    if m.externalId != "" then m.externalId else m.id
  }

  function Ids(ms: seq<Match>): (r: set<string>)
  {
    set m | m in ms :: m.id
  }

  ghost predicate DistinctIds(ms: seq<Match>) {
    forall i, j :: 0 <= i < j < |ms| ==> ms[i].id != ms[j].id
  }

  lemma {:induction false} CountIds(ms: seq<Match>)
    ensures |Ids(ms)| <= |ms|
    ensures DistinctIds(ms) ==> |Ids(ms)| == |ms|
  {
    if ms != [] {
      CountIds(ms[1..]);
      assert ms == [ms[0]] + ms[1..];
      assert Ids(ms) == {ms[0].id} + Ids(ms[1..]);
      if DistinctIds(ms) {
        assert DistinctIds(ms[1..]);
        assert forall j :: 0 < j < |ms| ==> ms[j] == ms[1..][j - 1];
        assert ms[0].id !in Ids(ms[1..]);
      }
    }
  }

  lemma SubsetCount<T>(a: set<T>, b: set<T>)
    requires a <= b
    ensures |a| <= |b| && (|a| == |b| ==> a == b)
  {
    assert b == a + (b - a);
    if |b - a| == 0 { assert b - a == {}; }
  }
}
