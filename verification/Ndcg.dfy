/** Normalised discounted cumulative gain (app/services/evaluation/metrics.py). `log2` is a
    parameter: any strictly increasing function with log2(1) = 0. The grades are the golden
    set's, which are never negative. */
module Ndcg {
  import opened Dicts
  import opened Sorting
  import opened Sequences

  ghost predicate IsLog2(log2: real -> real) {
    && log2(1.0) == 0.0
    && forall x, y :: 0.0 < x < y ==> log2(x) < log2(y)
  }

  function Pow2(g: nat): nat {
    if g == 0 then 1 else 2 * Pow2(g - 1)
  }

  /** `2**g - 1` */
  function Gain(g: nat): real {
    (Pow2(g) - 1) as real
  }

  ghost predicate IsDiscount(d: nat -> real) {
    && (forall i: nat :: 0.0 < d(i))
    && forall i: nat, j: nat :: i < j ==> d(j) < d(i)
  }

  /** What a gain at 0-based rank `i` is multiplied by: `1 / log2(i + 2)`. */
  function Discount(log2: real -> real): nat -> real
    requires IsLog2(log2)
  {
    (i: nat) => assert log2(1.0) < log2((i + 2) as real); 1.0 / log2((i + 2) as real)
  }

  lemma DiscountDecreases(log2: real -> real)
    requires IsLog2(log2)
    ensures IsDiscount(Discount(log2))
  {
    var d := Discount(log2);
    assert log2(1.0) == 0.0;
    forall i: nat ensures 0.0 < d(i) {
      assert log2(1.0) < log2((i + 2) as real);
      ReciprocalDecreases(log2((i + 2) as real), log2((i + 2) as real) + 1.0);
    }
    forall i: nat, j: nat | i < j ensures d(j) < d(i) {
      assert log2(1.0) < log2((i + 2) as real) < log2((j + 2) as real);
      ReciprocalDecreases(log2((i + 2) as real), log2((j + 2) as real));
    }
  }

  lemma ReciprocalDecreases(a: real, b: real)
    requires 0.0 < a < b
    ensures 0.0 < 1.0 / b < 1.0 / a
  {
    var x, y := 1.0 / a, 1.0 / b;
    assert x * a == 1.0 && y * b == 1.0;
    assert (x - y) * a == y * (b - a);
  }

  /** A discounted gain, and what comes after it. */
  function Ahead(gain: real, discount: real, rest: real): real {
    gain * discount + rest
  }

  /** The inner `dcg`, over grades whose first one stands at `rank` (from 0). */
  function Dcg(grades: seq<nat>, rank: nat, d: nat -> real): real {
    if grades == [] then 0.0
    else Ahead(Gain(grades[0]), d(rank), Dcg(grades[1..], rank + 1, d))
  }

  predicate Descending(a: nat, b: nat) { a >= b }

  function Values(relevant: Dict<string, nat>): seq<nat>
  {
    seq(|relevant|, i requires 0 <= i < |relevant| => relevant[i].1)
  }

  /** `relevant.get(external_id, 0)` */
  function Grade(relevant: Dict<string, nat>, id: string): nat {
    match Get(relevant, id) case Some(g) => g case None => 0
  }

  function Grades(relevant: Dict<string, nat>, ids: seq<string>): seq<nat>
  {
    seq(|ids|, i requires 0 <= i < |ids| => Grade(relevant, ids[i]))
  }

  function IdealGrades(relevant: Dict<string, nat>, k: nat): seq<nat> {
    Take(Sort(Values(relevant), Descending), k)
  }

  function NdcgAtK(ranked: seq<string>, relevant: Dict<string, nat>, k: nat, log2: real -> real): real
    requires IsLog2(log2)
  {
    var ideal := Dcg(IdealGrades(relevant, k), 0, Discount(log2));
    if ideal == 0.0 then 0.0
    else Dcg(Grades(relevant, Take(ranked, k)), 0, Discount(log2)) / ideal
  }

  // ---- Gains and discounts ----

  lemma {:induction false} GainMonotone(a: nat, b: nat)
    requires a < b
    ensures 0.0 <= Gain(a) < Gain(b)
  {
    PowPositive(a);
    if b == a + 1 {
    } else {
      GainMonotone(a, b - 1);
      PowPositive(b - 1);
    }
  }

  lemma {:induction false} PowPositive(g: nat)
    ensures Pow2(g) >= 1
  {
    if g > 0 { PowPositive(g - 1); }
  }

  // ---- Any list drawn from a multiset is dominated by its descending order ----

  function Total(grades: seq<nat>): real {
    if grades == [] then 0.0 else Gain(grades[0]) + Total(grades[1..])
  }

  lemma {:induction false} TotalRemove(g: seq<nat>, i: nat)
    requires i < |g|
    ensures Total(g) == Gain(g[i]) + Total(g[..i] + g[i + 1..])
  {
    if i > 0 {
      TotalRemove(g[1..], i - 1);
      var rest := g[..i] + g[i + 1..];
      assert rest[1..] == g[1..][..i - 1] + g[1..][i..];
    } else {
      assert g[..0] + g[1..] == g[1..];
    }
  }

  lemma {:induction false} TopTotalsDominate(g: seq<nat>, s: seq<nat>)
    requires SortedBy(s, Descending) && multiset(g) <= multiset(s) && |g| <= |s|
    ensures Total(g) <= Total(s[..|g|])
  {
    if g != [] {
      // Remove s[0] from g if it is there, else any element: none is larger.
      var i := if s[0] in g then IndexOf(g, s[0]) else 0;
      TotalRemove(g, i);
      var rest := g[..i] + g[i + 1..];
      DrawnFromTail(g, s, i);
      TopTotalsDominate(rest, s[1..]);
      assert s[..|g|][1..] == s[1..][..|rest|];
      if g[i] < s[0] { GainMonotone(g[i], s[0]); }
    }
  }

  lemma DrawnFromTail(g: seq<nat>, s: seq<nat>, i: nat)
    requires SortedBy(s, Descending) && multiset(g) <= multiset(s) && s != [] && i < |g|
    requires s[0] in g ==> g[i] == s[0]
    ensures multiset(g[..i] + g[i + 1..]) <= multiset(s[1..]) && g[i] <= s[0]
  {
    var rest := multiset(g[..i] + g[i + 1..]);
    RemoveOne(g, i);
    RemoveHead(s);
    assert multiset(g)[g[i]] > 0;
    assert s[0] in rest + multiset{g[i]} ==> s[0] in g;
    DropHead(rest, g[i], multiset(s[1..]), s[0]);
  }

  lemma RemoveHead(s: seq<nat>)
    requires s != []
    ensures multiset(s) == multiset(s[1..]) + multiset{s[0]}
  {
    assert s == [s[0]] + s[1..];
  }

  lemma RemoveOne(g: seq<nat>, i: nat)
    requires i < |g|
    ensures multiset(g) == multiset(g[..i] + g[i + 1..]) + multiset{g[i]}
  {
    assert g == g[..i] + [g[i]] + g[i + 1..];
  }

  lemma DropHead(a: multiset<nat>, x: nat, b: multiset<nat>, y: nat)
    requires a + multiset{x} <= b + multiset{y}
    requires y in a + multiset{x} ==> x == y
    ensures a <= b
  {
    forall z ensures a[z] <= b[z] {
      assert (a + multiset{x})[z] <= (b + multiset{y})[z];
    }
  }

  ghost function IndexOf(g: seq<nat>, x: nat): (i: nat)
    requires x in g
    ensures i < |g| && g[i] == x
  {
    var i :| 0 <= i < |g| && g[i] == x; i
  }

  ghost predicate Dominated(carry: real, g: seq<nat>, s: seq<nat>)
    requires |g| == |s|
  {
    forall m :: 0 <= m <= |g| ==> Total(g[..m]) <= carry + Total(s[..m])
  }

  lemma DominatedTail(carry: real, g: seq<nat>, s: seq<nat>)
    requires |g| == |s| > 0 && Dominated(carry, g, s)
    ensures Dominated(Next(carry, g[0], s[0]), g[1..], s[1..])
    ensures 0.0 <= carry && 0.0 <= Next(carry, g[0], s[0])
  {
    forall m | 0 <= m <= |g| - 1
      ensures Total(g[1..][..m]) <= Next(carry, g[0], s[0]) + Total(s[1..][..m])
    {
      assert g[..m + 1][1..] == g[1..][..m] && s[..m + 1][1..] == s[1..][..m];
      assert Total(g[..m + 1]) <= carry + Total(s[..m + 1]);
    }
    assert Total(g[..0]) <= carry + Total(s[..0]);
    assert Total(g[1..][..0]) == 0.0 == Total(s[1..][..0]);
  }

  /** Abel summation, one rank at a time: `carry` is what the prefix so far is ahead by. With
      nothing carried, the sums are equal only when the lists are. */
  lemma {:induction false} DominatedDcg(carry: real, g: seq<nat>, s: seq<nat>, rank: nat, d: nat -> real)
    requires IsDiscount(d) && |g| == |s| && Dominated(carry, g, s)
    ensures Dcg(g, rank, d) <= Ahead(carry, d(rank), Dcg(s, rank, d))
    ensures carry == 0.0 && Dcg(g, rank, d) == Dcg(s, rank, d) ==> g == s
    decreases |g|
  {
    if g == [] {
      assert Total(g[..0]) <= carry + Total(s[..0]);
      Product(carry, d(rank));
    } else {
      DominatedTail(carry, g, s);
      var next := Next(carry, g[0], s[0]);
      DominatedDcg(next, g[1..], s[1..], rank + 1, d);
      CarryStep(carry, g[0], s[0], d(rank), d(rank + 1), Dcg(g[1..], rank + 1, d), Dcg(s[1..], rank + 1, d));
      if carry == 0.0 && Dcg(g, rank, d) == Dcg(s, rank, d) {
        GainInjective(g[0], s[0]);
        assert g == [g[0]] + g[1..] && s == [s[0]] + s[1..];
      }
    }
  }

  function Next(carry: real, x: nat, y: nat): real {
    carry + Gain(y) - Gain(x)
  }

  lemma Product(x: real, y: real)
    requires 0.0 <= x && 0.0 < y
    ensures 0.0 <= x * y && (x * y == 0.0 ==> x == 0.0)
  {
  }

  lemma GainInjective(a: nat, b: nat)
    ensures Gain(a) == Gain(b) ==> a == b
  {
    if a < b { GainMonotone(a, b); }
    if b < a { GainMonotone(b, a); }
  }

  lemma CarryStep(carry: real, x: nat, y: nat, d: real, d': real, g: real, s: real)
    requires 0.0 < d' < d && 0.0 <= carry && 0.0 <= Next(carry, x, y)
    requires g <= Ahead(Next(carry, x, y), d', s)
    ensures Ahead(Gain(x), d, g) <= Ahead(carry, d, Ahead(Gain(y), d, s))
    ensures carry == 0.0 && Ahead(Gain(x), d, g) == Ahead(Gain(y), d, s) ==> g == s && Next(carry, x, y) == 0.0
  {
    CarryTurn(carry, Gain(x), Gain(y), Next(carry, x, y), d, d', g, s);
  }

  lemma CarryTurn(carry: real, a: real, b: real, z: real, d: real, d': real, g: real, s: real)
    requires 0.0 < d' < d && 0.0 <= z && z == carry + b - a && g <= Ahead(z, d', s)
    ensures Ahead(a, d, g) <= Ahead(carry, d, Ahead(b, d, s))
    ensures carry == 0.0 && Ahead(a, d, g) == Ahead(b, d, s) ==> g == s && z == 0.0
  {
    Split(carry, a, b, d);
    Split(z, 0.0, 0.0, d');
    assert z * d - z * d' == z * (d - d');
    Product(z, d - d');
    assert carry == 0.0 ==> carry * d == 0.0;
    assert z == 0.0 ==> z * d == 0.0;
  }

  lemma Split(carry: real, a: real, b: real, d: real)
    ensures carry * d + b * d - a * d == (carry + b - a) * d
  {
  }

  lemma {:induction false} DcgNonNegative(g: seq<nat>, rank: nat, d: nat -> real)
    requires IsDiscount(d)
    ensures Dcg(g, rank, d) >= 0.0
  {
    if g != [] {
      DcgNonNegative(g[1..], rank + 1, d);
      PowPositive(g[0]);
    }
  }

  // ---- Grades of distinct results come out of the golden set ----

  function Zeros(n: nat): (r: seq<nat>)
    ensures |r| == n && forall i :: 0 <= i < n ==> r[i] == 0
  {
    seq(n, i => 0)
  }

  function Pad(g: seq<nat>, k: nat): (r: seq<nat>)
    requires |g| <= k
    ensures |r| == k
  {
    g + Zeros(k - |g|)
  }

  ghost predicate Distinct(ids: seq<string>) {
    forall i, j :: 0 <= i < j < |ids| ==> ids[i] != ids[j]
  }

  lemma {:induction false} DcgOfPadded(g: seq<nat>, k: nat, rank: nat, d: nat -> real)
    requires |g| <= k
    ensures Dcg(Pad(g, k), rank, d) == Dcg(g, rank, d)
    decreases k
  {
    if k > 0 {
      var tail := if g == [] then [] else g[1..];
      assert Pad(g, k)[1..] == Pad(tail, k - 1);
      DcgOfPadded(tail, k - 1, rank + 1, d);
    }
  }

  function Without<K, V>(d: Dict<K, V>, i: nat): Dict<K, V>
    requires i < |d|
  {
    d[..i] + d[i + 1..]
  }

  lemma {:induction false} GradeWithout(relevant: Dict<string, nat>, i: nat, id: string)
    requires i < |relevant| && id != relevant[i].0
    ensures Grade(Without(relevant, i), id) == Grade(relevant, id)
  {
    var rest := Without(relevant, i);
    if i > 0 {
      assert rest[1..] == Without(relevant[1..], i - 1);
      if relevant[0].0 != id {
        GradeWithout(relevant[1..], i - 1, id);
      }
    } else {
      assert rest == relevant[1..];
    }
  }

  lemma {:induction false} GradesDrawnFromGoldenSet(relevant: Dict<string, nat>, ids: seq<string>)
    requires DistinctKeys(relevant) && Distinct(ids)
    ensures multiset(Grades(relevant, ids)) <= multiset(Values(relevant)) + multiset(Zeros(|ids|))
  {
    if ids != [] {
      var rest := ids[1..];
      assert Grades(relevant, ids) == [Grade(relevant, ids[0])] + Grades(relevant, rest);
      assert Zeros(|ids|) == [0] + Zeros(|rest|);
      if HasKey(relevant, ids[0]) {
        var i := GetWitness(relevant, ids[0]);
        GradesDrawnFromGoldenSet(Without(relevant, i), rest);
        GradesWithout(relevant, i, rest);
        ValuesWithout(relevant, i);
      } else {
        GradesDrawnFromGoldenSet(relevant, rest);
      }
    }
  }

  lemma GradesWithout(relevant: Dict<string, nat>, i: nat, ids: seq<string>)
    requires i < |relevant| && forall j :: 0 <= j < |ids| ==> ids[j] != relevant[i].0
    ensures Grades(Without(relevant, i), ids) == Grades(relevant, ids)
  {
    forall j | 0 <= j < |ids| ensures Grade(Without(relevant, i), ids[j]) == Grade(relevant, ids[j]) {
      GradeWithout(relevant, i, ids[j]);
    }
  }

  lemma ValuesWithout(relevant: Dict<string, nat>, i: nat)
    requires i < |relevant|
    ensures multiset(Values(relevant)) == multiset(Values(Without(relevant, i))) + multiset{relevant[i].1}
  {
    var v := Values(relevant);
    assert v == v[..i] + [v[i]] + v[i + 1..];
    assert Values(Without(relevant, i)) == v[..i] + v[i + 1..];
  }

  // ---- The main results ----

  /** Every prefix of the ranking's grades totals at most the ideal's prefix. */
  lemma {:induction false} IdealPrefixes(g: seq<nat>, values: seq<nat>, k: nat)
    requires |g| <= k && multiset(g) <= multiset(values) + multiset(Zeros(|g|))
    ensures var ideal := Take(Sort(values, Descending), k);
            |ideal| <= k && Dominated(0.0, Pad(g, k), Pad(ideal, k))
  {
    SortSorts(values, Descending);
    var sorted := Sort(values, Descending);
    DrawnFromPadded(g, values, sorted, k);
    assert Pad(Take(sorted, k), k) == (sorted + Zeros(k))[..k];
    PrefixesDominated(Pad(g, k), sorted + Zeros(k));
  }

  lemma DrawnFromPadded(g: seq<nat>, values: seq<nat>, sorted: seq<nat>, k: nat)
    requires |g| <= k && multiset(g) <= multiset(values) + multiset(Zeros(|g|)) && multiset(sorted) == multiset(values)
    ensures multiset(Pad(g, k)) <= multiset(sorted + Zeros(k))
  {
    assert Zeros(k) == Zeros(|g|) + Zeros(k - |g|);
    assert multiset(Zeros(k)) == multiset(Zeros(|g|)) + multiset(Zeros(k - |g|));
  }

  lemma PrefixesDominated(g: seq<nat>, s: seq<nat>)
    requires SortedBy(s, Descending) && multiset(g) <= multiset(s) && |g| <= |s|
    ensures Dominated(0.0, g, s[..|g|])
  {
    forall m | 0 <= m <= |g| ensures Total(g[..m]) <= 0.0 + Total(s[..|g|][..m]) {
      assert g == g[..m] + g[m..];
      assert multiset(g[..m]) <= multiset(g);
      TopTotalsDominate(g[..m], s);
      assert s[..|g|][..m] == s[..m];
    }
  }

  lemma IdealDominates(ranked: seq<string>, relevant: Dict<string, nat>, k: nat, d: nat -> real)
    requires IsDiscount(d) && DistinctKeys(relevant) && Distinct(ranked)
    ensures var g, ideal := Grades(relevant, Take(ranked, k)), IdealGrades(relevant, k);
            && |g| <= k && |ideal| <= k
            && Dcg(g, 0, d) <= Dcg(ideal, 0, d)
            && (Dcg(g, 0, d) == Dcg(ideal, 0, d) ==> Pad(g, k) == Pad(ideal, k))
  {
    var g, ideal := Grades(relevant, Take(ranked, k)), IdealGrades(relevant, k);
    GradesDrawnFromGoldenSet(relevant, Take(ranked, k));
    IdealPrefixes(g, Values(relevant), k);
    PaddedDominates(g, ideal, k, d);
  }

  lemma {:induction false} PaddedDominates(g: seq<nat>, ideal: seq<nat>, k: nat, d: nat -> real)
    requires IsDiscount(d) && |g| <= k && |ideal| <= k && Dominated(0.0, Pad(g, k), Pad(ideal, k))
    ensures Dcg(g, 0, d) <= Dcg(ideal, 0, d)
    ensures Dcg(g, 0, d) == Dcg(ideal, 0, d) ==> Pad(g, k) == Pad(ideal, k)
  {
    FlatDominates(Pad(g, k), Pad(ideal, k), d);
    DcgOfPadded(g, k, 0, d);
    DcgOfPadded(ideal, k, 0, d);
  }

  lemma {:induction false} FlatDominates(g: seq<nat>, s: seq<nat>, d: nat -> real)
    requires IsDiscount(d) && |g| == |s| && Dominated(0.0, g, s)
    ensures Dcg(g, 0, d) <= Dcg(s, 0, d)
    ensures Dcg(g, 0, d) == Dcg(s, 0, d) ==> g == s
  {
    DominatedDcg(0.0, g, s, 0, d);
  }

  lemma Quotient(x: real, y: real)
    requires 0.0 <= x <= y && y != 0.0
    ensures 0.0 <= x / y <= 1.0 && (x / y == 1.0 <==> x == y)
  {
    assert (x / y) * y == x;
  }

  /** NDCG is in [0, 1]; unless nothing is worth finding, it is 1 exactly when the top `k`
      grades are the ideal ones, trailing zeros apart. */
  lemma NdcgBounds(ranked: seq<string>, relevant: Dict<string, nat>, k: nat, log2: real -> real)
    requires IsLog2(log2) && DistinctKeys(relevant) && Distinct(ranked)
    ensures 0.0 <= NdcgAtK(ranked, relevant, k, log2) <= 1.0
    ensures (exists i :: 0 <= i < |IdealGrades(relevant, k)| && IdealGrades(relevant, k)[i] > 0) ==>
              (NdcgAtK(ranked, relevant, k, log2) == 1.0 <==>
               Pad(Grades(relevant, Take(ranked, k)), k) == Pad(IdealGrades(relevant, k), k))
  {
    var g, ideal, d := Grades(relevant, Take(ranked, k)), IdealGrades(relevant, k), Discount(log2);
    DiscountDecreases(log2);
    IdealDominates(ranked, relevant, k, d);
    DcgNonNegative(g, 0, d);
    DcgZero(ideal, 0, d);
    DcgOfPadded(g, k, 0, d);
    DcgOfPadded(ideal, k, 0, d);
    if Dcg(ideal, 0, d) != 0.0 {
      Quotient(Dcg(g, 0, d), Dcg(ideal, 0, d));
    }
  }

  /** The guard `ideal == 0` fires exactly when no ideal grade is positive. */
  lemma {:induction false} DcgZero(g: seq<nat>, rank: nat, d: nat -> real)
    requires IsDiscount(d)
    ensures Dcg(g, rank, d) == 0.0 <==> forall i :: 0 <= i < |g| ==> g[i] == 0
  {
    if g != [] {
      DcgZero(g[1..], rank + 1, d);
      DcgNonNegative(g[1..], rank + 1, d);
      if g[0] > 0 {
        GainMonotone(0, g[0]);
        assert Gain(g[0]) * d(rank) > 0.0;
      }
      assert forall i :: 0 < i < |g| ==> g[i] == g[1..][i - 1];
      assert forall i :: 0 <= i < |g| - 1 ==> g[1..][i] == g[i + 1];
    }
  }

  function Swap<T>(s: seq<T>, i: nat): seq<T>
    requires i + 1 < |s|
  {
    s[i := s[i + 1]][i + 1 := s[i]]
  }

  lemma {:induction false} SwapRaisesDcg(g: seq<nat>, i: nat, rank: nat, d: nat -> real)
    requires IsDiscount(d) && i + 1 < |g| && g[i] < g[i + 1]
    ensures Dcg(g, rank, d) < Dcg(Swap(g, i), rank, d)
  {
    var s := Swap(g, i);
    if i > 0 {
      assert s[1..] == Swap(g[1..], i - 1);
      SwapRaisesDcg(g[1..], i - 1, rank + 1, d);
    } else {
      GainMonotone(g[0], g[1]);
      assert s[1..][1..] == g[2..] == g[1..][1..] && s[0] == g[1] && s[1..][0] == g[0];
      assert d(rank + 1) < d(rank);
      Exchange(Gain(g[0]), Gain(g[1]), d(rank), d(rank + 1), Dcg(g[2..], rank + 2, d));
    }
  }

  lemma Exchange(x: real, y: real, d: real, d': real, rest: real)
    requires x < y && d' < d
    ensures Ahead(x, d, Ahead(y, d', rest)) < Ahead(y, d, Ahead(x, d', rest))
  {
    assert y * d + x * d' - x * d - y * d' == (y - x) * (d - d');
  }

  lemma {:induction false} RaiseLastRaisesDcg(g: seq<nat>, last: nat, rank: nat, d: nat -> real)
    requires IsDiscount(d) && |g| > 0 && g[|g| - 1] < last
    ensures Dcg(g, rank, d) < Dcg(g[|g| - 1 := last], rank, d)
  {
    var h := g[|g| - 1 := last];
    if |g| > 1 {
      assert h[1..] == g[1..][|g| - 2 := last];
      RaiseLastRaisesDcg(g[1..], last, rank + 1, d);
    } else {
      assert g[1..] == [] == h[1..];
      GainMonotone(g[0], last);
      assert Gain(last) * d(rank) - Gain(g[0]) * d(rank) == (Gain(last) - Gain(g[0])) * d(rank);
    }
  }

  lemma SwapRaisesTopDcg(ranked: seq<string>, relevant: Dict<string, nat>, k: nat, d: nat -> real, i: nat)
    requires IsDiscount(d) && i + 1 < |ranked|
    requires Grade(relevant, ranked[i]) < Grade(relevant, ranked[i + 1])
    ensures var g, h := Grades(relevant, Take(ranked, k)), Grades(relevant, Take(Swap(ranked, i), k));
            if i < k then Dcg(g, 0, d) < Dcg(h, 0, d) else g == h
  {
    var g, h := Grades(relevant, Take(ranked, k)), Grades(relevant, Take(Swap(ranked, i), k));
    if i + 1 < k {
      assert h == Swap(g, i);
      SwapRaisesDcg(g, i, 0, d);
    } else if i < k {
      assert h == g[i := Grade(relevant, ranked[i + 1])];
      RaiseLastRaisesDcg(g, Grade(relevant, ranked[i + 1]), 0, d);
    } else {
      assert Take(Swap(ranked, i), k) == Take(ranked, k);
    }
  }

  /** Moving a better item up one place never lowers NDCG, and raises it when the upper place is
      within the top `k` (and some item is worth finding). */
  lemma SwapRaisesNdcg(ranked: seq<string>, relevant: Dict<string, nat>, k: nat, log2: real -> real, i: nat)
    requires IsLog2(log2) && i + 1 < |ranked|
    requires Grade(relevant, ranked[i]) < Grade(relevant, ranked[i + 1])
    ensures NdcgAtK(ranked, relevant, k, log2) <= NdcgAtK(Swap(ranked, i), relevant, k, log2)
    ensures i < k && (exists j :: 0 <= j < |IdealGrades(relevant, k)| && IdealGrades(relevant, k)[j] > 0) ==>
              NdcgAtK(ranked, relevant, k, log2) < NdcgAtK(Swap(ranked, i), relevant, k, log2)
  {
    var d := Discount(log2);
    var ideal := Dcg(IdealGrades(relevant, k), 0, d);
    DiscountDecreases(log2);
    DcgNonNegative(IdealGrades(relevant, k), 0, d);
    DcgZero(IdealGrades(relevant, k), 0, d);
    SwapRaisesTopDcg(ranked, relevant, k, d, i);
    if ideal != 0.0 && i < k {
      var x, y := Dcg(Grades(relevant, Take(ranked, k)), 0, d), Dcg(Grades(relevant, Take(Swap(ranked, i), k)), 0, d);
      QuotientMonotone(x, y, ideal);
    }
  }

  lemma QuotientMonotone(x: real, y: real, z: real)
    requires x < y && 0.0 < z
    ensures x / z < y / z
  {
    assert (x / z) * z == x && (y / z) * z == y;
  }

  // ---- Values ----

  /** Each grade doubles the gain and adds one: 0, 1, 3, 7. */
  lemma GainDoubles(g: nat)
    ensures Gain(0) == 0.0 && Gain(g + 1) == 2.0 * Gain(g) + 1.0
  {
    PowPositive(g);
  }

  lemma {:induction false} DcgOfOne(g: seq<nat>, i: nat, rank: nat, d: nat -> real)
    requires IsDiscount(d) && i < |g| && forall j :: 0 <= j < |g| && j != i ==> g[j] == 0
    ensures Dcg(g, rank, d) == Ahead(Gain(g[i]), d(rank + i), 0.0)
  {
    if i == 0 {
      DcgZero(g[1..], rank + 1, d);
    } else {
      DcgOfOne(g[1..], i - 1, rank + 1, d);
      NothingAhead(d(rank), Dcg(g[1..], rank + 1, d));
    }
  }

  lemma NothingAhead(discount: real, rest: real)
    ensures Ahead(Gain(0), discount, rest) == rest
  {
  }

  lemma DcgAt(g: seq<nat>, i: nat, grade: nat, log2: real -> real)
    requires IsLog2(log2) && forall j :: 0 <= j < |g| ==> g[j] == if j == i then grade else 0
    ensures Dcg(g, 0, Discount(log2)) == if i < |g| then Ahead(Gain(grade), Discount(log2)(i), 0.0) else 0.0
  {
    DiscountDecreases(log2);
    if i < |g| { DcgOfOne(g, i, 0, Discount(log2)); } else { DcgZero(g, 0, Discount(log2)); }
  }

  lemma GradesOfOne(ranked: seq<string>, id: string, g: nat, k: nat, i: nat)
    requires Distinct(ranked) && i < |ranked| && ranked[i] == id
    ensures var top := Grades([(id, g)], Take(ranked, k));
            && |top| == (if k <= |ranked| then k else |ranked|)
            && forall j :: 0 <= j < |top| ==> top[j] == if j == i then g else 0
  {
    forall j | 0 <= j < |Take(ranked, k)| ensures Grade([(id, g)], ranked[j]) == if j == i then g else 0 {
      assert j != i ==> ranked[j] != id;
    }
  }

  lemma IdealOfOne(id: string, g: nat, k: nat)
    ensures IdealGrades([(id, g)], k) == if k == 0 then [] else [g]
  {
    assert Values([(id, g)]) == [g] && [g][1..] == [];
    assert Sort([g], Descending) == [g];
  }

  /** With one relevant item, NDCG is 1 over the logarithm of its rank plus one, in units of log 2: 1 at the first
      rank, and half at the third where log2(2) is 1 and log2(4) is 2. It is 0 outside the top `k`. */
  lemma OneRelevant(ranked: seq<string>, id: string, g: nat, k: nat, log2: real -> real, i: nat)
    requires IsLog2(log2) && g > 0 && Distinct(ranked) && i < |ranked| && ranked[i] == id
    ensures Earned(NdcgAtK(ranked, [(id, g)], k, log2), log2((i + 2) as real))
         == if i < k then log2(2.0) else 0.0
  {
    var top := Grades([(id, g)], Take(ranked, k));
    IdealOfOne(id, g, k);
    GradesOfOne(ranked, id, g, k, i);
    DcgAt(top, i, g, log2);
    if i < k {
      DcgAt([g], 0, g, log2);
      GainMonotone(0, g);
      assert log2(1.0) < log2(2.0) && log2(1.0) < log2((i + 2) as real);
      Share(Gain(g), log2(2.0), log2((i + 2) as real), Dcg([g], 0, Discount(log2)), Dcg(top, 0, Discount(log2)));
    } else {
      NoShare(Dcg(IdealGrades([(id, g)], k), 0, Discount(log2)), log2((i + 2) as real));
    }
  }

  function Earned(ndcg: real, log: real): real {
    ndcg * log
  }

  lemma Share(gain: real, a: real, b: real, ideal: real, dcg: real)
    requires gain > 0.0 && a > 0.0 && b > 0.0
    requires ideal == Ahead(gain, 1.0 / a, 0.0) && dcg == Ahead(gain, 1.0 / b, 0.0)
    ensures ideal != 0.0 && Earned(dcg / ideal, b) == a
  {
    var x, y := 1.0 / a, 1.0 / b;
    assert x * a == 1.0 && y * b == 1.0;
    assert dcg / ideal == y / x;
  }

  lemma NoShare(ideal: real, log: real)
    ensures Earned(0.0, log) == 0.0 && (ideal != 0.0 ==> 0.0 / ideal == 0.0)
  {
  }
}
