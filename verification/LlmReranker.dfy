/** The LLM stage (app/services/recommendation/llm_reranker.py): reading the model's answer and
    reordering by it. The chat call itself is the parameter `answer`. */
module LlmReranker {
  import opened Dicts
  import opened Sorting
  import opened Matches
  import opened Sequences

  /** One well-formed entry of the answer, its id already read as a number. */
  datatype Entry = Entry(number: int, score: int, reason: string)

  datatype Verdict = Verdict(score: int, reason: string)

  datatype Candidate = Candidate(key: string, text: string)

  /** No client, a failed or malformed answer, or the entries in the order given. */
  datatype Answer = NotConfigured | Failed | Answered(entries: seq<Entry>)

  datatype Outcome = Outcome(matches: seq<Match>, fallback: string)

  function Clamp(score: int): (r: int)
    ensures 0 <= r <= 10 && (score <= 0 ==> r == 0) && (0 <= score <= 10 ==> r == score) && (score >= 10 ==> r == 10)
  {
    var low := if score >= 0 then score else 0;
    if low <= 10 then low else 10
  }

  // ---- parse_verdicts ----

  function AddEntry(verdicts: Dict<int, Verdict>, entry: Entry, count: nat): Dict<int, Verdict> {
    if 1 <= entry.number <= count && !HasKey(verdicts, entry.number)
    then Put(verdicts, entry.number, Verdict(Clamp(entry.score), Take(entry.reason, 200)))
    else verdicts
  }

  function Verdicts(entries: seq<Entry>, count: nat): Dict<int, Verdict>
    decreases |entries|
  {
    if entries == [] then []
    else AddEntry(Verdicts(entries[..|entries| - 1], count), entries[|entries| - 1], count)
  }

  method ParseVerdicts(entries: seq<Entry>, count: nat) returns (verdicts: Dict<int, Verdict>)
    ensures verdicts == Verdicts(entries, count)
  {
    verdicts := [];
    for i := 0 to |entries|
      invariant verdicts == Verdicts(entries[..i], count)
    {
      assert entries[..i + 1][..i] == entries[..i];
      var entry := entries[i];
      if 1 <= entry.number <= count && !HasKey(verdicts, entry.number) {
        verdicts := Put(verdicts, entry.number, Verdict(Clamp(entry.score), Take(entry.reason, 200)));
      }
    }
    assert entries[..|entries|] == entries;
  }

  ghost predicate FirstEntryFor(entries: seq<Entry>, number: int, i: int) {
    0 <= i < |entries| && entries[i].number == number && forall j :: 0 <= j < i ==> entries[j].number != number
  }

  ghost predicate Mentioned(entries: seq<Entry>, number: int) {
    exists i :: 0 <= i < |entries| && entries[i].number == number
  }

  /** A candidate is judged exactly when its number is mentioned, by the first entry that does,
      clamped to 0..10; unknown numbers and repetitions change nothing. */
  lemma {:induction false} VerdictsAreFirst(entries: seq<Entry>, count: nat, number: int)
    ensures var d := Verdicts(entries, count);
            && DistinctKeys(d)
            && (HasKey(d, number) <==> 1 <= number <= count && Mentioned(entries, number))
            && forall i :: FirstEntryFor(entries, number, i) && 1 <= number <= count ==>
                 Get(d, number) == Some(Verdict(Clamp(entries[i].score), Take(entries[i].reason, 200)))
    decreases |entries|
  {
    if entries != [] {
      var front, last := entries[..|entries| - 1], entries[|entries| - 1];
      VerdictsAreFirst(front, count, number);
      VerdictsAreFirst(front, count, last.number);
      var d := Verdicts(front, count);
      if 1 <= last.number <= count && !HasKey(d, last.number) {
        var v := Verdict(Clamp(last.score), Take(last.reason, 200));
        PutKeepsDistinct(d, last.number, v);
        GetAfterPut(d, last.number, v, number);
      }
      assert Mentioned(entries, number) <==> Mentioned(front, number) || last.number == number by {
        assert entries[|entries| - 1] == last;
        assert forall i :: 0 <= i < |front| ==> front[i] == entries[i];
      }
      forall i | FirstEntryFor(entries, number, i) && 1 <= number <= count
        ensures Get(Verdicts(entries, count), number)
             == Some(Verdict(Clamp(entries[i].score), Take(entries[i].reason, 200)))
      {
        assert i < |front| ==> FirstEntryFor(front, number, i) && front[i] == entries[i];
        assert i == |front| ==> !Mentioned(front, number);
      }
    }
  }

  // ---- rerank: candidate number to match id ----

  predicate Numbered(verdicts: Dict<int, Verdict>, count: nat) {
    forall i :: 0 <= i < |verdicts| ==> 1 <= verdicts[i].0 <= count
  }

  /** `{candidates[number - 1].key: ... for number, ... in verdicts.items()}` */
  function ByKey(verdicts: Dict<int, Verdict>, candidates: seq<Candidate>): Dict<string, Verdict>
    requires Numbered(verdicts, |candidates|)
    decreases |verdicts|
  {
    if verdicts == [] then []
    else
      var (number, verdict) := verdicts[|verdicts| - 1];
      Put(ByKey(verdicts[..|verdicts| - 1], candidates), candidates[number - 1].key, verdict)
  }

  lemma {:induction false} VerdictNumbers(entries: seq<Entry>, count: nat)
    ensures Numbered(Verdicts(entries, count), count)
  {
    var d := Verdicts(entries, count);
    forall i | 0 <= i < |d| ensures 1 <= d[i].0 <= count {
      VerdictsAreFirst(entries, count, d[i].0);
    }
  }

  ghost predicate DistinctCandidates(candidates: seq<Candidate>) {
    forall i, j :: 0 <= i < j < |candidates| ==> candidates[i].key != candidates[j].key
  }

  lemma {:induction false} LastEntry(verdicts: Dict<int, Verdict>, number: int)
    requires DistinctKeys(verdicts) && verdicts != []
    ensures var (n, v) := verdicts[|verdicts| - 1];
            Get(verdicts, number) == if number == n then Some(v) else Get(verdicts[..|verdicts| - 1], number)
  {
    var front := verdicts[..|verdicts| - 1];
    var (n, v) := verdicts[|verdicts| - 1];
    assert !HasKey(front, n);
    assert Put(front, n, v) == verdicts;
    GetAfterPut(front, n, v, number);
  }

  ghost predicate Follows(d: Dict<string, Verdict>, key: string, verdicts: Dict<int, Verdict>, number: int) {
    DistinctKeys(d) && Get(d, key) == Get(verdicts, number)
  }

  /** With distinct candidates, a match id has the verdict of its candidate number. */
  lemma {:induction false} ByKeyFollowsNumber(verdicts: Dict<int, Verdict>, candidates: seq<Candidate>, number: int)
    requires DistinctKeys(verdicts) && DistinctCandidates(candidates) && 1 <= number <= |candidates|
    requires Numbered(verdicts, |candidates|)
    ensures Follows(ByKey(verdicts, candidates), candidates[number - 1].key, verdicts, number)
    decreases |verdicts|
  {
    if verdicts != [] {
      ByKeyFollowsNumber(verdicts[..|verdicts| - 1], candidates, number);
      PutThenGet(ByKey(verdicts[..|verdicts| - 1], candidates), candidates[verdicts[|verdicts| - 1].0 - 1].key,
                 verdicts[|verdicts| - 1].1, candidates[number - 1].key);
      LastEntry(verdicts, number);
    }
  }

  // ---- _reorder ----

  function Annotated(m: Match, verdict: Option<Verdict>): Match {
    match verdict
    case Some(v) => m.(llmScore := Some(v.score), llmReason := v.reason)
    case None => m
  }

  function Annotate(m: Match, verdicts: Dict<string, Verdict>): Match {
    Annotated(m, Get(verdicts, m.id))
  }

  function AnnotateAll(ms: seq<Match>, verdicts: Dict<string, Verdict>): seq<Match>
  {
    seq(|ms|, i requires 0 <= i < |ms| => Annotate(ms[i], verdicts))
  }

  function Positioned(ms: seq<Match>, from: nat): (r: seq<(nat, Match)>)
    ensures |r| == |ms| && forall i :: 0 <= i < |r| ==> r[i] == (from + i, ms[i])
  {
    if ms == [] then [] else [(from, ms[0])] + Positioned(ms[1..], from + 1)
  }

  /** Judged first, best score first. */
  predicate ByScore(a: Match, b: Match) {
    b.llmScore.None? || (a.llmScore.Some? && a.llmScore.value >= b.llmScore.value)
  }

  /** The sort key `(llm_score is None, -llm_score, position)`. */
  predicate ByScoreThenPosition(a: (nat, Match), b: (nat, Match)) {
    ByScore(a.1, b.1) && (ByScore(b.1, a.1) ==> a.0 <= b.0)
  }

  function Second(pairs: seq<(nat, Match)>): (r: seq<Match>)
    ensures |r| == |pairs|
  {
    if pairs == [] then [] else [pairs[0].1] + Second(pairs[1..])
  }

  function Reorder(ms: seq<Match>, verdicts: Dict<string, Verdict>): seq<Match> {
    Second(Sort(Positioned(AnnotateAll(ms, verdicts), 0), ByScoreThenPosition))
  }

  method ReorderMatches(ms: seq<Match>, verdicts: Dict<string, Verdict>) returns (r: seq<Match>)
    ensures r == Reorder(ms, verdicts)
  {
    ghost var all := Positioned(AnnotateAll(ms, verdicts), 0);
    var judged: seq<(nat, Match)> := [];
    for position := 0 to |ms|
      invariant judged == all[..position]
    {
      var m := ms[position];
      var verdict := Get(verdicts, m.id);
      if verdict.Some? {
        m := m.(llmScore := Some(verdict.value.score), llmReason := verdict.value.reason);
      }
      assert all[position] == (position, m);
      judged := judged + [(position, m)];
    }
    assert judged == all;
    r := Second(Sort(judged, ByScoreThenPosition));
  }

  function LlmRerank(ms: seq<Match>, candidates: seq<Candidate>, answer: Answer): Outcome {
    if candidates == [] then Outcome(ms, "")
    else
      match answer
      case NotConfigured => Outcome(ms, "not_configured")
      case Failed => Outcome(ms, "error")
      case Answered(entries) =>
        VerdictNumbers(entries, |candidates|);
        Outcome(Reorder(ms, ByKey(Verdicts(entries, |candidates|), candidates)), "")
  }

  // ---- The stage is a stable sort ----

  lemma {:induction false} InsertPositioned(x: (nat, Match), s: seq<(nat, Match)>)
    requires forall i :: 0 <= i < |s| ==> x.0 < s[i].0
    ensures Second(Insert(x, s, ByScoreThenPosition)) == Insert(x.1, Second(s), ByScore)
  {
    if s != [] {
      assert Second(s)[0] == s[0].1 && Second(s)[1..] == Second(s[1..]);
      if ByScoreThenPosition(x, s[0]) {
        assert ([x] + s)[1..] == s;
      } else {
        InsertPositioned(x, s[1..]);
        var rest := Insert(x, s[1..], ByScoreThenPosition);
        assert ([s[0]] + rest)[1..] == rest;
      }
    }
  }

  /** Breaking ties by position is what a stable sort does anyway. */
  lemma {:induction false} SortPositioned(ms: seq<Match>, from: nat)
    ensures Second(Sort(Positioned(ms, from), ByScoreThenPosition)) == Sort(ms, ByScore)
    decreases |ms|
  {
    if ms != [] {
      var tail := Positioned(ms[1..], from + 1);
      SortPositioned(ms[1..], from + 1);
      var s := Sort(tail, ByScoreThenPosition);
      forall i | 0 <= i < |s| ensures from < s[i].0 {
        assert s[i] in multiset(tail);
      }
      assert Positioned(ms, from)[1..] == tail;
      InsertPositioned((from, ms[0]), s);
    }
  }

  /** The LLM stage permutes its input: judged items first by score, ties and unjudged items in
      the order they had. */
  lemma {:induction false} ReorderIsStable(ms: seq<Match>, verdicts: Dict<string, Verdict>, x: Match)
    ensures var r, annotated := Reorder(ms, verdicts), AnnotateAll(ms, verdicts);
            && multiset(r) == multiset(annotated)
            && BestFirst(r)
            && Ties(r, x, ByScore) == Ties(annotated, x, ByScore)
  {
    var annotated := AnnotateAll(ms, verdicts);
    SortPositioned(annotated, 0);
    SortedIsBestFirst(annotated);
    SortStable(annotated, x, ByScore);
  }

  /** A judged match comes after none that is unjudged or scored lower. */
  ghost predicate BestFirst(ms: seq<Match>) {
    forall i, j :: 0 <= i < j < |ms| && ms[j].llmScore.Some? ==>
      ms[i].llmScore.Some? && ms[i].llmScore.value >= ms[j].llmScore.value
  }

  lemma SortedIsBestFirst(ms: seq<Match>)
    ensures BestFirst(Sort(ms, ByScore))
  {
    var r := Sort(ms, ByScore);
    SortSorts(ms, ByScore);
    forall i, j | 0 <= i < j < |r| ensures ByScore(r[i], r[j]) {}
  }

  /** What the answer says of candidate `number`: its first entry, clamped, or nothing. */
  ghost predicate JudgedBy(m: Match, entries: seq<Entry>, number: int) {
    if Mentioned(entries, number)
    then exists i :: FirstEntryFor(entries, number, i) && m.llmScore == Some(Clamp(entries[i].score))
                     && m.llmReason == Take(entries[i].reason, 200)
    else m.llmScore == None
  }

  /** `judged` is the match `m` with what the answer says of it, nothing if it was no candidate. */
  ghost predicate Judgement(m: Match, judged: Match, candidates: seq<Candidate>, entries: seq<Entry>) {
    && judged == m.(llmScore := judged.llmScore, llmReason := judged.llmReason)
    && (forall c :: 0 <= c < |candidates| && candidates[c].key == m.id ==> JudgedBy(judged, entries, c + 1))
    && (!IsCandidate(candidates, m.id) ==> judged == m)
  }

  ghost predicate IsCandidate(candidates: seq<Candidate>, key: string) {
    exists c :: 0 <= c < |candidates| && candidates[c].key == key
  }

  lemma FirstEntryExists(entries: seq<Entry>, number: int)
    requires Mentioned(entries, number)
    ensures exists i :: FirstEntryFor(entries, number, i)
  {
    var i := 0;
    while entries[i].number != number
      invariant i < |entries| && forall j :: 0 <= j < i ==> entries[j].number != number
      decreases |entries| - i
    {
      var k :| 0 <= k < |entries| && entries[k].number == number;
      assert k > i;
      i := i + 1;
    }
    assert FirstEntryFor(entries, number, i);
  }

  /** For every answer (repeated, unknown or missing ids, any scores): the outcome is a stable
      sort by score of the input, each candidate judged by the first entry naming it and every
      other match unjudged; on failure it is the input. */
  lemma LlmStage(ms: seq<Match>, candidates: seq<Candidate>, answer: Answer)
    requires DistinctCandidates(candidates)
    requires forall i :: 0 <= i < |ms| ==> ms[i].llmScore == None
    ensures var r := LlmRerank(ms, candidates, answer).matches;
            if candidates == [] || !answer.Answered? then r == ms
            else exists judged :: AllJudged(ms, judged, candidates, answer.entries) && r == Sort(judged, ByScore)
    ensures LlmRerank(ms, candidates, answer).fallback
         == if candidates == [] || answer.Answered? then "" else if answer.Failed? then "error" else "not_configured"
  {
    if candidates != [] && answer.Answered? {
      var entries := answer.entries;
      VerdictNumbers(entries, |candidates|);
      var d := ByKey(Verdicts(entries, |candidates|), candidates);
      SortPositioned(AnnotateAll(ms, d), 0);
      AllJudgements(ms, candidates, entries);
    }
  }

  ghost predicate AllJudged(ms: seq<Match>, judged: seq<Match>, candidates: seq<Candidate>, entries: seq<Entry>) {
    |judged| == |ms| && forall i :: 0 <= i < |ms| ==> Judgement(ms[i], judged[i], candidates, entries)
  }

  lemma {:induction false} AllJudgements(ms: seq<Match>, candidates: seq<Candidate>, entries: seq<Entry>)
    requires DistinctCandidates(candidates) && Numbered(Verdicts(entries, |candidates|), |candidates|)
    requires forall i :: 0 <= i < |ms| ==> ms[i].llmScore == None
    ensures AllJudged(ms, AnnotateAll(ms, ByKey(Verdicts(entries, |candidates|), candidates)), candidates, entries)
  {
    forall i | 0 <= i < |ms|
      ensures Judgement(ms[i], Annotate(ms[i], ByKey(Verdicts(entries, |candidates|), candidates)), candidates, entries)
    {
      JudgementOf(ms[i], candidates, entries);
    }
  }

  lemma {:induction false} JudgedByVerdict(m: Match, entries: seq<Entry>, count: nat, number: int)
    requires m.llmScore == None && 1 <= number <= count
    ensures JudgedBy(Annotated(m, Get(Verdicts(entries, count), number)), entries, number)
  {
    VerdictsAreFirst(entries, count, number);
    if Mentioned(entries, number) {
      FirstEntryExists(entries, number);
    }
  }

  lemma {:induction false} VerdictsAreDistinct(entries: seq<Entry>, count: nat)
    ensures DistinctKeys(Verdicts(entries, count))
  {
    VerdictsAreFirst(entries, count, 0);
  }

  lemma {:induction false} AnnotatedByNumber(m: Match, verdicts: Dict<int, Verdict>, candidates: seq<Candidate>, c: nat)
    requires DistinctCandidates(candidates) && c < |candidates| && candidates[c].key == m.id
    requires DistinctKeys(verdicts) && Numbered(verdicts, |candidates|)
    ensures Annotate(m, ByKey(verdicts, candidates)) == Annotated(m, Get(verdicts, c + 1))
  {
    ByKeyFollowsNumber(verdicts, candidates, c + 1);
  }

  lemma {:induction false} CandidateJudged(m: Match, candidates: seq<Candidate>, entries: seq<Entry>, c: nat)
    requires DistinctCandidates(candidates) && m.llmScore == None && c < |candidates| && candidates[c].key == m.id
    requires Numbered(Verdicts(entries, |candidates|), |candidates|)
    ensures JudgedBy(Annotate(m, ByKey(Verdicts(entries, |candidates|), candidates)), entries, c + 1)
  {
    var verdicts := Verdicts(entries, |candidates|);
    assert Annotate(m, ByKey(verdicts, candidates)) == Annotated(m, Get(verdicts, c + 1)) by {
      VerdictsAreDistinct(entries, |candidates|);
      AnnotatedByNumber(m, verdicts, candidates, c);
    }
    JudgedByVerdict(m, entries, |candidates|, c + 1);
  }

  lemma {:induction false} JudgementOf(m: Match, candidates: seq<Candidate>, entries: seq<Entry>)
    requires DistinctCandidates(candidates) && m.llmScore == None
    requires Numbered(Verdicts(entries, |candidates|), |candidates|)
    ensures Judgement(m, Annotate(m, ByKey(Verdicts(entries, |candidates|), candidates)), candidates, entries)
  {
    var judged := Annotate(m, ByKey(Verdicts(entries, |candidates|), candidates));
    forall c | 0 <= c < |candidates| && candidates[c].key == m.id ensures JudgedBy(judged, entries, c + 1) {
      CandidateJudged(m, candidates, entries, c);
    }
    if !IsCandidate(candidates, m.id) {
      UnknownKey(Verdicts(entries, |candidates|), candidates, m.id);
    }
  }

  lemma {:induction false} UnknownKey(verdicts: Dict<int, Verdict>, candidates: seq<Candidate>, key: string)
    requires Numbered(verdicts, |candidates|)
    requires !IsCandidate(candidates, key)
    ensures !HasKey(ByKey(verdicts, candidates), key)
    decreases |verdicts|
  {
    if verdicts != [] {
      UnknownKey(verdicts[..|verdicts| - 1], candidates, key);
    }
  }
}
