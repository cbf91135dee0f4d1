/** Re-ranking by feedback (app/services/recommendation/reranker.py) with smoothed rates
    (app/services/recommendation/item_stats.py). `log1p` is a parameter: any strictly increasing
    function with log1p(0) = 0. */
module Reranker {
  import opened Dicts
  import opened Arithmetic
  import opened Sorting
  import opened Matches
  import opened Hybrid
  import opened Sequences

  const PRIOR_STRENGTH: real := 20.0
  const CANDIDATE_MULTIPLIER: nat := 4
  const MAX_CANDIDATES: nat := 200

  ghost predicate IsLog1p(log1p: real -> real) {
    log1p(0.0) == 0.0 && forall x, y :: 0.0 <= x < y ==> log1p(x) < log1p(y)
  }

  /** One row of item_stats: recent, decayed counts, never negative. */
  datatype ItemStats = ItemStats(
    externalId: string, impressions: real, clicks: real, positives: real, negatives: real, conversions: real)

  predicate ValidStats(s: ItemStats) {
    && 0.0 <= s.impressions && 0.0 <= s.clicks && 0.0 <= s.positives && 0.0 <= s.negatives && 0.0 <= s.conversions
  }

  datatype Signal = Engagement | Conversion | Negative

  function Successes(s: ItemStats, signal: Signal): real {
    match signal
    case Engagement => s.clicks + s.positives
    case Conversion => s.conversions
    case Negative => s.negatives
  }

  function Min(x: real, y: real): real {
    if x > y then y else x
  }

  datatype WorkspaceStats = WorkspaceStats(
    impressions: real, engagement: real, conversion: real, negative: real, maxImpressions: real)
  {
    predicate HasData() {
      impressions > 0.0
    }

    function Average(signal: Signal): real {
      match signal
      case Engagement => engagement
      case Conversion => conversion
      case Negative => negative
    }
  }

  datatype Weights = Weights(engagement: real, conversion: real, negative: real, popularity: real)

  predicate ValidWeights(w: Weights) {
    0.0 <= w.engagement && 0.0 <= w.conversion && 0.0 <= w.negative && 0.0 <= w.popularity
  }

  function CandidateCount(topK: nat): nat {
    var wanted := if topK * CANDIDATE_MULTIPLIER >= topK then topK * CANDIDATE_MULTIPLIER else topK;
    if wanted <= MAX_CANDIDATES then wanted else MAX_CANDIDATES
  }

  // ---- Workspace averages ----

  function TotalImpressions(rows: seq<ItemStats>): real {
    if rows == [] then 0.0 else rows[0].impressions + TotalImpressions(rows[1..])
  }

  function TotalCapped(rows: seq<ItemStats>, signal: Signal): real {
    if rows == [] then 0.0
    else Min(Successes(rows[0], signal), rows[0].impressions) + TotalCapped(rows[1..], signal)
  }

  function MaxImpressions(rows: seq<ItemStats>): real {
    if rows == [] then 0.0
    else
      var rest := MaxImpressions(rows[1..]);
      if |rows| == 1 || rows[0].impressions > rest then rows[0].impressions else rest
  }

  function WorkspaceStatsOf(rows: seq<ItemStats>): WorkspaceStats {
    var total := TotalImpressions(rows);
    if total <= 0.0 then WorkspaceStats(0.0, 0.0, 0.0, 0.0, 0.0)
    else WorkspaceStats(total, TotalCapped(rows, Engagement) / total, TotalCapped(rows, Conversion) / total,
                        TotalCapped(rows, Negative) / total, MaxImpressions(rows))
  }

  // ---- Adjustment ----

  function SmoothedRate(successes: real, trials: real, prior: real, strength: real): real
    requires trials + strength != 0.0
  {
    (successes + Times(prior, strength)) / (trials + strength)
  }

  function Lift(s: ItemStats, signal: Signal, prior: WorkspaceStats): real
    requires s.impressions >= 0.0
  {
    SmoothedRate(Min(Successes(s, signal), s.impressions), s.impressions, prior.Average(signal), PRIOR_STRENGTH)
    - prior.Average(signal)
  }

  function Popularity(shown: real, most: real, log1p: real -> real): real
    requires IsLog1p(log1p)
  {
    if most > 0.0 then assert log1p(0.0) < log1p(most); log1p(shown) / log1p(most) else 0.0
  }

  function Adjustment(item: Option<ItemStats>, w: Weights, prior: WorkspaceStats, log1p: real -> real): real
    requires IsLog1p(log1p)
  {
    if item.None? || item.value.impressions <= 0.0 then 0.0
    else
      var s := item.value;
      Times(w.engagement, Lift(s, Engagement, prior)) + Times(w.conversion, Lift(s, Conversion, prior))
      - Times(w.negative, Lift(s, Negative, prior))
      + Times(w.popularity, Popularity(s.impressions, prior.maxImpressions, log1p))
  }

  // ---- Re-ranking ----

  /** `{row.external_item_id: row for row in rows}`; a workspace has one row per item. */
  function StatsOf(rows: seq<ItemStats>, externalId: string): (r: Option<ItemStats>)
    ensures r.Some? ==> r.value in rows && r.value.externalId == externalId
    ensures r.None? ==> forall i :: 0 <= i < |rows| ==> rows[i].externalId != externalId
    decreases |rows|
  {
    if rows == [] then None
    else if rows[|rows| - 1].externalId == externalId then Some(rows[|rows| - 1])
    else StatsOf(rows[..|rows| - 1], externalId)
  }

  function RankingScore(m: Match): real {
    match m.ranking case Some(s) => s case None => RetrievalScore(m)
  }

  predicate ByRanking(a: Match, b: Match) {
    RankingScore(a) >= RankingScore(b)
  }

  function WithRanking(m: Match, rows: seq<ItemStats>, w: Weights, prior: WorkspaceStats, log1p: real -> real): Match
    requires IsLog1p(log1p)
  {
    m.(ranking := Some(RetrievalScore(m) + Adjustment(StatsOf(rows, ExternalId(m)), w, prior, log1p)))
  }

  function ScoreRanking(ms: seq<Match>, rows: seq<ItemStats>, w: Weights, prior: WorkspaceStats,
                        log1p: real -> real): seq<Match>
    requires IsLog1p(log1p)
  {
    seq(|ms|, i requires 0 <= i < |ms| => WithRanking(ms[i], rows, w, prior, log1p))
  }

  function Reranked(ms: seq<Match>, topK: nat, rows: seq<ItemStats>, w: Weights, prior: WorkspaceStats,
                    log1p: real -> real): seq<Match>
    requires IsLog1p(log1p)
  {
    Take(Sort(ScoreRanking(ms, rows, w, prior, log1p), ByRanking), topK)
  }

  method Rerank(ms: seq<Match>, topK: nat, rows: seq<ItemStats>, w: Weights, prior: WorkspaceStats,
                log1p: real -> real) returns (r: seq<Match>)
    requires IsLog1p(log1p)
    ensures r == Reranked(ms, topK, rows, w, prior, log1p)
  {
    var scored: seq<Match> := [];
    for i := 0 to |ms|
      invariant scored == ScoreRanking(ms, rows, w, prior, log1p)[..i]
    {
      var m := ms[i];
      var score := RetrievalScore(m) + Adjustment(StatsOf(rows, ExternalId(m)), w, prior, log1p);
      scored := scored + [m.(ranking := Some(score))];
    }
    assert scored == ScoreRanking(ms, rows, w, prior, log1p);
    r := Take(Sort(scored, ByRanking), topK);
  }

  // ---- Feedback is zero-sum ----

  lemma SmoothingGap(s: real, n: real, average: real)
    requires n >= 0.0
    ensures Times(n + PRIOR_STRENGTH, SmoothedRate(s, n, average, PRIOR_STRENGTH) - average) == s - Times(average, n)
  {
    var d := n + PRIOR_STRENGTH;
    Divide(s + Times(average, PRIOR_STRENGTH), d);
    Distribute(d, SmoothedRate(s, n, average, PRIOR_STRENGTH), -average);
    Commute(d, SmoothedRate(s, n, average, PRIOR_STRENGTH));
    Distribute(average, n, PRIOR_STRENGTH);
  }

  /** What one item's lift amounts to in impressions: its capped successes less its share. */
  lemma LiftGap(s: ItemStats, signal: Signal, prior: WorkspaceStats)
    requires ValidStats(s)
    ensures Times(s.impressions + PRIOR_STRENGTH, Lift(s, signal, prior))
         == Min(Successes(s, signal), s.impressions) - Times(prior.Average(signal), s.impressions)
  {
    SmoothingGap(Min(Successes(s, signal), s.impressions), s.impressions, prior.Average(signal));
  }

  function WeightedLifts(rows: seq<ItemStats>, signal: Signal, prior: WorkspaceStats): real
    requires forall i :: 0 <= i < |rows| ==> ValidStats(rows[i])
  {
    if rows == [] then 0.0
    else
      assert ValidStats(rows[0]);
      Times(rows[0].impressions + PRIOR_STRENGTH, Lift(rows[0], signal, prior))
      + WeightedLifts(rows[1..], signal, prior)
  }

  lemma {:induction false} WeightedLiftsGap(rows: seq<ItemStats>, signal: Signal, prior: WorkspaceStats)
    requires forall i :: 0 <= i < |rows| ==> ValidStats(rows[i])
    ensures WeightedLifts(rows, signal, prior)
         == TotalCapped(rows, signal) - Times(prior.Average(signal), TotalImpressions(rows))
  {
    var a := prior.Average(signal);
    if rows == [] {
      assert Times(a, 0.0) == 0.0;
    } else {
      LiftGap(rows[0], signal, prior);
      WeightedLiftsGap(rows[1..], signal, prior);
      Distribute(a, rows[0].impressions, TotalImpressions(rows[1..]));
    }
  }

  /** Over a workspace's items, each weighted by its impressions plus the prior's strength, the
      lifts of any signal cancel out exactly. */
  lemma {:induction false} FeedbackIsZeroSum(rows: seq<ItemStats>, signal: Signal)
    requires forall i :: 0 <= i < |rows| ==> ValidStats(rows[i])
    ensures WeightedLifts(rows, signal, WorkspaceStatsOf(rows)) == 0.0
  {
    var prior, total := WorkspaceStatsOf(rows), TotalImpressions(rows);
    WeightedLiftsGap(rows, signal, prior);
    CappedBounds(rows, signal);
    if total > 0.0 {
      Divide(TotalCapped(rows, signal), total);
    } else {
      assert Times(0.0, total) == 0.0;
    }
  }

  lemma {:induction false} CappedBounds(rows: seq<ItemStats>, signal: Signal)
    requires forall i :: 0 <= i < |rows| ==> ValidStats(rows[i])
    ensures 0.0 <= TotalCapped(rows, signal) <= TotalImpressions(rows)
  {
    if rows != [] { CappedBounds(rows[1..], signal); }
  }

  // ---- and bounded ----

  lemma AverageInUnit(rows: seq<ItemStats>, signal: Signal)
    requires forall i :: 0 <= i < |rows| ==> ValidStats(rows[i])
    ensures 0.0 <= WorkspaceStatsOf(rows).Average(signal) <= 1.0
  {
    var total, capped := TotalImpressions(rows), TotalCapped(rows, signal);
    CappedBounds(rows, signal);
    if total > 0.0 {
      Divide(capped, total);
      Commute(capped / total, total);
      assert Times(total, 0.0) == 0.0 && Times(total, 1.0) == total;
      Larger(total, capped / total, 0.0);
      Larger(total, 1.0, capped / total);
    }
  }

  /** No amount of feedback moves an item's rate further from the average than its impressions
      allow, and it moves it up exactly when the item does better than the average. */
  lemma LiftBounds(s: ItemStats, signal: Signal, prior: WorkspaceStats)
    requires ValidStats(s) && 0.0 <= prior.Average(signal) <= 1.0
    ensures var n := s.impressions;
            && -n / (n + PRIOR_STRENGTH) <= Lift(s, signal, prior) <= n / (n + PRIOR_STRENGTH)
            && (Lift(s, signal, prior) > 0.0 <==>
                Min(Successes(s, signal), n) > Times(prior.Average(signal), n))
  {
    var n, a := s.impressions, prior.Average(signal);
    LiftGap(s, signal, prior);
    ShareOf(a, n);
    RatioBounds(n, n + PRIOR_STRENGTH, Lift(s, signal, prior));
    Positive(n + PRIOR_STRENGTH, Lift(s, signal, prior));
  }

  lemma ShareOf(a: real, n: real)
    requires 0.0 <= a <= 1.0 && 0.0 <= n
    ensures 0.0 <= Times(a, n) <= n
  {
    NonNegative(a, n);
    NonNegative(1.0 - a, n);
    Distribute(n, 1.0, -a);
    assert Times(1.0, n) == n && Times(-a, n) == -Times(a, n);
  }

  lemma RatioBounds(n: real, d: real, l: real)
    requires 0.0 < d && -n <= Times(d, l) <= n
    ensures -n / d <= l <= n / d
  {
    Divide(n, d);
    Commute(n / d, d);
    Larger(d, n / d, l);
    Divide(-n, d);
    Commute(-n / d, d);
    Larger(d, l, -n / d);
  }

  lemma PopularityInUnit(shown: real, most: real, log1p: real -> real)
    requires IsLog1p(log1p) && 0.0 <= shown <= most
    ensures 0.0 <= Popularity(shown, most, log1p) <= 1.0
  {
    if most > 0.0 {
      assert log1p(0.0) < log1p(most);
      var x, y := log1p(shown), log1p(most);
      assert 0.0 <= x <= y by {
        assert shown == 0.0 || log1p(0.0) < log1p(shown);
        assert shown == most || log1p(shown) < log1p(most);
      }
      Divide(x, y);
      Commute(x / y, y);
      assert Times(y, 0.0) == 0.0 && Times(y, 1.0) == y;
      Larger(y, x / y, 0.0);
      Larger(y, 1.0, x / y);
    }
  }

  lemma {:induction false} MaxImpressionsIs(rows: seq<ItemStats>, i: nat)
    requires i < |rows| && forall j :: 0 <= j < |rows| ==> ValidStats(rows[j])
    ensures rows[i].impressions <= MaxImpressions(rows)
  {
    if i > 0 { MaxImpressionsIs(rows[1..], i - 1); }
  }

  lemma {:induction false} MaxImpressionsReached(rows: seq<ItemStats>)
    requires rows != []
    ensures exists i :: 0 <= i < |rows| && rows[i].impressions == MaxImpressions(rows)
  {
    if |rows| == 1 || rows[0].impressions > MaxImpressions(rows[1..]) {
      assert rows[0].impressions == MaxImpressions(rows);
    } else {
      MaxImpressionsReached(rows[1..]);
      var i :| 0 <= i < |rows[1..]| && rows[1..][i].impressions == MaxImpressions(rows[1..]);
      assert rows[i + 1].impressions == MaxImpressions(rows);
    }
  }

  lemma TimesInUnit(w: real, x: real)
    requires 0.0 <= w && -1.0 <= x <= 1.0
    ensures -w <= Times(w, x) <= w && (x >= 0.0 ==> 0.0 <= Times(w, x))
  {
    NonNegative(w, 1.0 - x);
    NonNegative(w, x + 1.0);
    Distribute(w, 1.0, -x);
    Distribute(w, x, 1.0);
    assert Times(w, 1.0) == w && Times(w, -x) == -Times(w, x);
    if x >= 0.0 { NonNegative(w, x); }
  }

  lemma LiftInUnit(s: ItemStats, signal: Signal, prior: WorkspaceStats)
    requires ValidStats(s) && 0.0 <= prior.Average(signal) <= 1.0
    ensures -1.0 <= Lift(s, signal, prior) <= 1.0
  {
    LiftBounds(s, signal, prior);
    var n, d := s.impressions, s.impressions + PRIOR_STRENGTH;
    Divide(n, d);
    Commute(n / d, d);
    assert Times(d, 1.0) == d;
    Larger(d, 1.0, n / d);
  }

  /** The largest and smallest adjustments there can be. */
  function Reach(w: Weights): real {
    w.engagement + w.conversion + w.negative
  }

  lemma {:induction false} AdjustmentBounds(externalId: string, w: Weights, rows: seq<ItemStats>, log1p: real -> real)
    requires IsLog1p(log1p) && ValidWeights(w) && forall i :: 0 <= i < |rows| ==> ValidStats(rows[i])
    ensures var a := Adjustment(StatsOf(rows, externalId), w, WorkspaceStatsOf(rows), log1p);
            -Reach(w) <= a <= Reach(w) + w.popularity
  {
    var item, prior := StatsOf(rows, externalId), WorkspaceStatsOf(rows);
    if item.Some? && item.value.impressions > 0.0 {
      var s := item.value;
      var i :| 0 <= i < |rows| && rows[i] == s;
      ImpressionsCount(rows, i);
      MaxImpressionsIs(rows, i);
      AverageInUnit(rows, Engagement);
      AverageInUnit(rows, Conversion);
      AverageInUnit(rows, Negative);
      LiftInUnit(s, Engagement, prior);
      LiftInUnit(s, Conversion, prior);
      LiftInUnit(s, Negative, prior);
      PopularityInUnit(s.impressions, prior.maxImpressions, log1p);
      TimesInUnit(w.engagement, Lift(s, Engagement, prior));
      TimesInUnit(w.conversion, Lift(s, Conversion, prior));
      TimesInUnit(w.negative, Lift(s, Negative, prior));
      TimesInUnit(w.popularity, Popularity(s.impressions, prior.maxImpressions, log1p));
    }
  }

  lemma {:induction false} ImpressionsCount(rows: seq<ItemStats>, i: nat)
    requires i < |rows| && forall j :: 0 <= j < |rows| ==> ValidStats(rows[j])
    ensures rows[i].impressions <= TotalImpressions(rows) && 0.0 <= TotalImpressions(rows)
  {
    CappedBounds(rows[1..], Engagement);
    if i > 0 { ImpressionsCount(rows[1..], i - 1); }
  }

  // ---- and in the right direction ----

  /** Each signal counts by its own weight, for what the item has, capped at its impressions, over its share of
      the workspace's average; negatives count against it. The prior is worth 20 impressions. */
  lemma AdjustmentIs(s: ItemStats, w: Weights, prior: WorkspaceStats, log1p: real -> real)
    requires IsLog1p(log1p) && ValidStats(s) && s.impressions > 0.0
    ensures var n := s.impressions;
            Times(n + 20.0, Adjustment(Some(s), w, prior, log1p)
                            - Times(w.popularity, Popularity(n, prior.maxImpressions, log1p)))
            == Times(w.engagement, Excess(s.clicks + s.positives, n, prior.engagement))
               + Times(w.conversion, Excess(s.conversions, n, prior.conversion))
               - Times(w.negative, Excess(s.negatives, n, prior.negative))
  {
    var d := s.impressions + 20.0;
    SignalIs(s, Engagement, w.engagement, prior);
    SignalIs(s, Conversion, w.conversion, prior);
    SignalIs(s, Negative, w.negative, prior);
    var e, c := Times(w.engagement, Lift(s, Engagement, prior)), Times(w.conversion, Lift(s, Conversion, prior));
    var n, p := Times(w.negative, Lift(s, Negative, prior)), Popularity(s.impressions, prior.maxImpressions, log1p);
    assert Adjustment(Some(s), w, prior, log1p) == e + c - n + Times(w.popularity, p);
    Spread(d, e, c, n);
  }

  lemma Spread(d: real, e: real, c: real, n: real)
    ensures Times(d, e + c - n) == Times(d, e) + Times(d, c) - Times(d, n)
  {
  }

  /** Successes beyond the average share of `n` impressions. */
  function Excess(successes: real, n: real, average: real): real {
    (if successes <= n then successes else n) - Times(average, n)
  }

  lemma SignalIs(s: ItemStats, signal: Signal, weight: real, prior: WorkspaceStats)
    requires ValidStats(s)
    ensures Times(s.impressions + 20.0, Times(weight, Lift(s, signal, prior)))
         == Times(weight, Excess(Successes(s, signal), s.impressions, prior.Average(signal)))
  {
    var d, l := s.impressions + 20.0, Lift(s, signal, prior);
    LiftGap(s, signal, prior);
    Associate(d, weight, l);
    Commute(d, weight);
    Associate(weight, d, l);
  }

  /** Popularity runs from 0 for an item never shown to 1 for the one shown most. */
  lemma PopularityRises(x: real, y: real, most: real, log1p: real -> real)
    requires IsLog1p(log1p) && 0.0 <= x < y <= most
    ensures Popularity(x, most, log1p) < Popularity(y, most, log1p)
    ensures Popularity(0.0, most, log1p) == 0.0 && Popularity(most, most, log1p) == 1.0
  {
    assert log1p(0.0) < log1p(most) && log1p(x) < log1p(y);
    var c := 1.0 / log1p(most);
    Reciprocal(log1p(most));
    Divide(log1p(x), log1p(most));
    Divide(log1p(y), log1p(most));
    Divide(log1p(0.0), log1p(most));
    Larger(c, log1p(x), log1p(y));
    assert Times(c, 0.0) == 0.0;
  }

  /** An item nobody was shown keeps its place. */
  lemma UnseenIsNeutral(item: Option<ItemStats>, w: Weights, prior: WorkspaceStats, log1p: real -> real)
    requires IsLog1p(log1p) && (item.Some? ==> item.value.impressions <= 0.0)
    ensures Adjustment(item, w, prior, log1p) == 0.0
  {}

  /** `t` was shown as often as `s` and did no worse by any signal. */
  predicate NoWorse(s: ItemStats, t: ItemStats) {
    && s.impressions == t.impressions && s.clicks + s.positives <= t.clicks + t.positives
    && s.conversions <= t.conversions && t.negatives <= s.negatives
  }

  /** and better by one that has a weight and is not capped. */
  predicate Better(s: ItemStats, t: ItemStats, w: Weights) {
    || (w.engagement > 0.0 && s.clicks + s.positives < t.clicks + t.positives && s.clicks + s.positives < s.impressions)
    || (w.conversion > 0.0 && s.conversions < t.conversions && s.conversions < s.impressions)
    || (w.negative > 0.0 && t.negatives < s.negatives && t.negatives < s.impressions)
  }

  lemma LiftRises(s: ItemStats, t: ItemStats, signal: Signal, prior: WorkspaceStats)
    requires ValidStats(s) && ValidStats(t) && s.impressions == t.impressions
    requires Successes(s, signal) <= Successes(t, signal)
    ensures Lift(s, signal, prior) <= Lift(t, signal, prior)
    ensures Successes(s, signal) < Successes(t, signal) && Successes(s, signal) < s.impressions ==>
              Lift(s, signal, prior) < Lift(t, signal, prior)
  {
    LiftGap(s, signal, prior);
    LiftGap(t, signal, prior);
    Larger(s.impressions + PRIOR_STRENGTH, Lift(s, signal, prior), Lift(t, signal, prior));
    Larger(s.impressions + PRIOR_STRENGTH, Lift(t, signal, prior), Lift(s, signal, prior));
  }

  lemma WeighedRises(w: real, x: real, y: real)
    requires 0.0 <= w && x <= y
    ensures Times(w, x) <= Times(w, y) && (w > 0.0 && x < y ==> Times(w, x) < Times(w, y))
  {
    NonNegative(w, y - x);
    Distribute(w, y, -x);
    if w > 0.0 { Larger(w, x, y); }
  }

  /** More clicks, positives or conversions never lower an item, more negatives never raise it; and strictly so
      when the signal has a weight, until it is capped. */
  lemma AdjustmentFollowsFeedback(s: ItemStats, t: ItemStats, w: Weights, prior: WorkspaceStats, log1p: real -> real)
    requires IsLog1p(log1p) && ValidWeights(w) && ValidStats(s) && ValidStats(t) && s.impressions > 0.0
    requires NoWorse(s, t)
    ensures Adjustment(Some(s), w, prior, log1p) <= Adjustment(Some(t), w, prior, log1p)
    ensures Better(s, t, w) ==> Adjustment(Some(s), w, prior, log1p) < Adjustment(Some(t), w, prior, log1p)
  {
    LiftRises(s, t, Engagement, prior);
    LiftRises(s, t, Conversion, prior);
    LiftRises(t, s, Negative, prior);
    WeighedRises(w.engagement, Lift(s, Engagement, prior), Lift(t, Engagement, prior));
    WeighedRises(w.conversion, Lift(s, Conversion, prior), Lift(t, Conversion, prior));
    WeighedRises(w.negative, Lift(t, Negative, prior), Lift(s, Negative, prior));
  }

  /** Of two matches equal for the search and shown equally often, the one that did better is ranked first, and one
      that did no worse never scores less. */
  lemma {:induction false} RerankFollowsFeedback(ms: seq<Match>, rows: seq<ItemStats>, w: Weights,
                                                 prior: WorkspaceStats, log1p: real -> real, i: nat, j: nat)
    requires IsLog1p(log1p) && ValidWeights(w) && i < |ms| && j < |ms|
    ensures var r := Sort(ScoreRanking(ms, rows, w, prior, log1p), ByRanking);
            var s, t := StatsOf(rows, ExternalId(r[i])), StatsOf(rows, ExternalId(r[j]));
            RetrievalScore(r[i]) == RetrievalScore(r[j]) && s.Some? && t.Some?
            && ValidStats(s.value) && ValidStats(t.value) && s.value.impressions > 0.0 && NoWorse(s.value, t.value) ==>
              RankingScore(r[i]) <= RankingScore(r[j]) && (Better(s.value, t.value, w) ==> j < i)
  {
    var scored := ScoreRanking(ms, rows, w, prior, log1p);
    var r := Sort(scored, ByRanking);
    var s, t := StatsOf(rows, ExternalId(r[i])), StatsOf(rows, ExternalId(r[j]));
    SortSorts(scored, ByRanking);
    RankedMember(ms, rows, w, prior, log1p, i);
    RankedMember(ms, rows, w, prior, log1p, j);
    if s.Some? && t.Some? && ValidStats(s.value) && ValidStats(t.value) && s.value.impressions > 0.0
       && NoWorse(s.value, t.value) {
      AdjustmentFollowsFeedback(s.value, t.value, w, prior, log1p);
      if RankingScore(r[j]) > RankingScore(r[i]) { AheadIsBefore(r, j, i); }
    }
  }

  /** Re-ranking with the workspace's own averages only reorders within a band: an item ahead by
      more than 2 * (engagement + conversion + negative) + popularity stays ahead, whatever the
      feedback. (The result is this order cut to `top_k`.) */
  lemma RerankKeepsGaps(ms: seq<Match>, rows: seq<ItemStats>, w: Weights, log1p: real -> real, i: nat, j: nat)
    requires IsLog1p(log1p) && ValidWeights(w) && forall k :: 0 <= k < |rows| ==> ValidStats(rows[k])
    requires i < |ms| && j < |ms|
    ensures var r := Sort(ScoreRanking(ms, rows, w, WorkspaceStatsOf(rows), log1p), ByRanking);
            RetrievalScore(r[i]) - RetrievalScore(r[j]) > 2.0 * Reach(w) + w.popularity ==> i < j
  {
    var s := ScoreRanking(ms, rows, w, WorkspaceStatsOf(rows), log1p);
    var r := Sort(s, ByRanking);
    SortSorts(s, ByRanking);
    RankedNear(ms, rows, w, log1p, i);
    RankedNear(ms, rows, w, log1p, j);
    if RankingScore(r[i]) > RankingScore(r[j]) { AheadIsBefore(r, i, j); }
  }

  lemma AheadIsBefore(r: seq<Match>, i: nat, j: nat)
    requires i < |r| && j < |r| && SortedBy(r, ByRanking) && RankingScore(r[i]) > RankingScore(r[j])
    ensures i < j
  {
    assert j < i ==> ByRanking(r[j], r[i]);
  }

  /** The ranking score stays near the retrieval score. */
  lemma RankedNear(ms: seq<Match>, rows: seq<ItemStats>, w: Weights, log1p: real -> real, i: nat)
    requires IsLog1p(log1p) && ValidWeights(w) && (forall k :: 0 <= k < |rows| ==> ValidStats(rows[k])) && i < |ms|
    ensures var m := Sort(ScoreRanking(ms, rows, w, WorkspaceStatsOf(rows), log1p), ByRanking)[i];
            -Reach(w) <= RankingScore(m) - RetrievalScore(m) <= Reach(w) + w.popularity
  {
    var m := Sort(ScoreRanking(ms, rows, w, WorkspaceStatsOf(rows), log1p), ByRanking)[i];
    RankedMember(ms, rows, w, WorkspaceStatsOf(rows), log1p, i);
    AdjustmentBounds(ExternalId(m), w, rows, log1p);
  }

  lemma {:induction false} RankedMember(ms: seq<Match>, rows: seq<ItemStats>, w: Weights, prior: WorkspaceStats,
                                        log1p: real -> real, i: nat)
    requires IsLog1p(log1p) && i < |ms|
    ensures var r := Sort(ScoreRanking(ms, rows, w, prior, log1p), ByRanking);
            RankingScore(r[i]) == RetrievalScore(r[i]) + Adjustment(StatsOf(rows, ExternalId(r[i])), w, prior, log1p)
  {
    var s := ScoreRanking(ms, rows, w, prior, log1p);
    var r := Sort(s, ByRanking);
    assert r[i] in multiset(s);
    var k :| 0 <= k < |s| && s[k] == r[i];
    assert s[k] == WithRanking(ms[k], rows, w, prior, log1p);
  }
}
