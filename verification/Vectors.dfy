/** Embedding vectors over exact reals: cosine similarity (app/services/recommendation/hybrid.py)
    and personal taste (app/services/recommendation/personalization.py). `sqrt` is a parameter,
    known only by what a square root is. */
module Vectors {
  import opened Dicts
  import opened Arithmetic
  import opened Sequences

  ghost predicate IsSqrt(sqrt: real -> real) {
    forall x :: 0.0 <= x ==> 0.0 <= sqrt(x) && Times(sqrt(x), sqrt(x)) == x
  }

  function Dot(a: Vec, b: Vec): real
    requires |a| == |b|
  {
    if a == [] then 0.0 else Times(a[0], b[0]) + Dot(a[1..], b[1..])
  }

  function Scale(c: real, a: Vec): (r: Vec)
    ensures |r| == |a|
  {
    if a == [] then [] else [Times(c, a[0])] + Scale(c, a[1..])
  }

  function Add(a: Vec, b: Vec): (r: Vec)
    requires |a| == |b|
    ensures |r| == |a|
  {
    if a == [] then [] else [a[0] + b[0]] + Add(a[1..], b[1..])
  }

  /** `zip(..., strict=True)` refuses vectors of different lengths. */
  function Cosine(a: Vec, b: Vec, sqrt: real -> real): real
    requires |a| == |b|
  {
    var norm := Times(sqrt(Dot(a, a)), sqrt(Dot(b, b)));
    if norm != 0.0 then Dot(a, b) / norm else 0.0
  }

  function Divided(v: Vec, norm: real): (r: Vec)
    requires norm != 0.0
    ensures |r| == |v|
  {
    if v == [] then [] else [v[0] / norm] + Divided(v[1..], norm)
  }

  function Normalize(v: Vec, sqrt: real -> real): (r: Vec)
    ensures |r| == |v|
  {
    var norm := sqrt(Dot(v, v));
    if norm != 0.0 then Divided(v, norm) else v
  }

  // ---- Bilinearity ----

  lemma {:induction false} DotSymmetric(a: Vec, b: Vec)
    requires |a| == |b|
    ensures Dot(a, b) == Dot(b, a)
  {
    if a != [] {
      DotSymmetric(a[1..], b[1..]);
      Commute(a[0], b[0]);
    }
  }

  lemma {:induction false} DotScale(c: real, a: Vec, b: Vec)
    requires |a| == |b|
    ensures Dot(Scale(c, a), b) == Times(c, Dot(a, b))
  {
    if a != [] {
      DotScale(c, a[1..], b[1..]);
      assert Scale(c, a)[1..] == Scale(c, a[1..]);
      Associate(c, a[0], b[0]);
      Distribute(c, Times(a[0], b[0]), Dot(a[1..], b[1..]));
    }
  }

  lemma {:induction false} DotAdd(a: Vec, b: Vec, v: Vec)
    requires |a| == |b| == |v|
    ensures Dot(Add(a, b), v) == Dot(a, v) + Dot(b, v)
  {
    if a != [] {
      DotAdd(a[1..], b[1..], v[1..]);
      assert Add(a, b)[1..] == Add(a[1..], b[1..]);
      Distribute(v[0], a[0], b[0]);
    }
  }

  lemma {:induction false} DotCombination(x: real, a: Vec, y: real, b: Vec, v: Vec)
    requires |a| == |b| == |v|
    ensures Dot(Add(Scale(x, a), Scale(y, b)), v) == Times(x, Dot(a, v)) + Times(y, Dot(b, v))
  {
    DotAdd(Scale(x, a), Scale(y, b), v);
    DotScale(x, a, v);
    DotScale(y, b, v);
  }

  ghost predicate IsZero(v: Vec) {
    forall i :: 0 <= i < |v| ==> v[i] == 0.0
  }

  lemma ZeroTail(v: Vec)
    requires v != []
    ensures IsZero(v) <==> v[0] == 0.0 && IsZero(v[1..])
  {
    assert v == [v[0]] + v[1..];
  }

  lemma {:induction false} SquareNonNegative(a: Vec)
    ensures Dot(a, a) >= 0.0
    ensures Dot(a, a) == 0.0 <==> IsZero(a)
  {
    if a != [] {
      SquareNonNegative(a[1..]);
      SquareSign(a[0]);
      ZeroTail(a);
    }
  }

  lemma {:induction false} DotZero(a: Vec, b: Vec)
    requires |a| == |b| && IsZero(b)
    ensures Dot(a, b) == 0.0
  {
    if a != [] { DotZero(a[1..], b[1..]); }
  }

  // ---- Cauchy-Schwarz ----

  lemma {:induction false} SquareOfCombination(x: real, a: Vec, y: real, b: Vec)
    requires |a| == |b|
    ensures var w := Add(Scale(x, a), Scale(y, b));
            Dot(w, w) == Times(x, Times(x, Dot(a, a)) + Times(y, Dot(a, b)))
                         + Times(y, Times(x, Dot(a, b)) + Times(y, Dot(b, b)))
  {
    var w := Add(Scale(x, a), Scale(y, b));
    DotCombination(x, a, y, b, w);
    DotCombination(x, a, y, b, a);
    DotCombination(x, a, y, b, b);
    DotSymmetric(a, w);
    DotSymmetric(b, w);
    DotSymmetric(a, b);
  }

  lemma {:induction false} CauchySchwarz(a: Vec, b: Vec)
    requires |a| == |b|
    ensures Times(Dot(a, b), Dot(a, b)) <= Times(Dot(a, a), Dot(b, b))
  {
    SquareNonNegative(b);
    if Dot(b, b) == 0.0 {
      DotZero(a, b);
    } else {
      var x, y := Dot(b, b), -Dot(a, b);
      SquareOfCombination(x, a, y, b);
      SquareNonNegative(Add(Scale(x, a), Scale(y, b)));
      CombinationGap(Dot(a, a), x, Dot(a, b), y);
    }
  }

  lemma CombinationGap(A: real, x: real, d: real, y: real)
    requires x > 0.0 && y == -d
    requires Times(x, Times(x, A) + Times(y, d)) + Times(y, Times(x, d) + Times(y, x)) >= 0.0
    ensures Times(d, d) <= Times(A, x)
  {
    assert Times(x, d) + Times(y, x) == 0.0;
    assert Times(x, A) + Times(y, d) == A * x - d * d;
    Positive(x, A * x - d * d);
  }

  // ---- Cosine ----

  lemma SquareBound(d: real, n: real)
    requires 0.0 < n && Times(d, d) <= Times(n, n)
    ensures -1.0 <= d / n <= 1.0
  {
    if d > n {
      Larger(n, n, d);
      Larger(d, n, d);
    }
    if -d > n {
      Larger(n, n, -d);
      Larger(-d, n, -d);
    }
    Divide(d, n);
    Larger(n, d / n, -1.0);
    Larger(n, 1.0, d / n);
  }

  lemma ProductOfRoots(x: real, y: real)
    requires x >= 0.0 && y >= 0.0
    ensures Times(Times(x, y), Times(x, y)) == Times(Times(x, x), Times(y, y)) && Times(x, y) >= 0.0
  {
  }

  lemma CosineBounds(a: Vec, b: Vec, sqrt: real -> real)
    requires IsSqrt(sqrt) && |a| == |b|
    ensures -1.0 <= Cosine(a, b, sqrt) <= 1.0
  {
    SquareNonNegative(a);
    SquareNonNegative(b);
    CauchySchwarz(a, b);
    ProductOfRoots(sqrt(Dot(a, a)), sqrt(Dot(b, b)));
    if Times(sqrt(Dot(a, a)), sqrt(Dot(b, b))) != 0.0 {
      SquareBound(Dot(a, b), Times(sqrt(Dot(a, a)), sqrt(Dot(b, b))));
    }
  }

  lemma {:induction false} DividedIsScale(v: Vec, norm: real)
    requires norm != 0.0
    ensures Divided(v, norm) == Scale(1.0 / norm, v)
  {
    if v != [] {
      DividedIsScale(v[1..], norm);
      Divide(v[0], norm);
    }
  }

  function Length(v: Vec, sqrt: real -> real): real {
    sqrt(Dot(v, v))
  }

  lemma {:induction false} LengthSign(v: Vec, sqrt: real -> real)
    requires IsSqrt(sqrt)
    ensures 0.0 <= Length(v, sqrt) && Times(Length(v, sqrt), Length(v, sqrt)) == Dot(v, v)
    ensures Length(v, sqrt) == 0.0 <==> IsZero(v)
  {
    SquareNonNegative(v);
    SquareSign(Length(v, sqrt));
  }

  /** A vector with any non-zero entry is scaled to length one; the zero vector stays. */
  lemma {:induction false} NormalizeUnit(v: Vec, sqrt: real -> real)
    requires IsSqrt(sqrt)
    ensures IsZero(v) ==> Normalize(v, sqrt) == v && Dot(v, v) == 0.0
    ensures !IsZero(v) ==>
              && 0.0 < Length(v, sqrt) && Normalize(v, sqrt) == Scale(1.0 / Length(v, sqrt), v)
              && Dot(Normalize(v, sqrt), Normalize(v, sqrt)) == 1.0
  {
    LengthSign(v, sqrt);
    SquareNonNegative(v);
    if !IsZero(v) {
      var c, u := 1.0 / Length(v, sqrt), Normalize(v, sqrt);
      DividedIsScale(v, Length(v, sqrt));
      DotScale(c, v, u);
      DotSymmetric(v, u);
      DotScale(c, v, v);
    }
  }

  lemma UnitRoot(sqrt: real -> real)
    requires IsSqrt(sqrt)
    ensures sqrt(1.0) == 1.0
  {
    RootOfOne(sqrt(1.0));
  }

  lemma RootOfOne(r: real)
    requires 0.0 <= r && Times(r, r) == 1.0
    ensures r == 1.0
  {
    if r > 1.0 { Larger(r, 1.0, r); }
    if r < 1.0 { Larger(r, r, 1.0); }
  }

  lemma CosineSymmetric(a: Vec, b: Vec, sqrt: real -> real)
    requires |a| == |b|
    ensures Cosine(a, b, sqrt) == Cosine(b, a, sqrt)
  {
    DotSymmetric(a, b);
  }

  lemma QuotientOfScaled(d: real, l: real, n: real)
    requires l > 0.0 && n != 0.0
    ensures Times(l, n) != 0.0 && Times(1.0 / l, d) / n == d / Times(l, n)
  {
    Positive(l, n);
    Divide(d, l);
    assert (d / l) / n == d / (l * n);
  }

  lemma CosineOfNormalized(a: Vec, b: Vec, sqrt: real -> real)
    requires IsSqrt(sqrt) && |a| == |b|
    ensures Cosine(Normalize(a, sqrt), b, sqrt) == Cosine(a, b, sqrt)
  {
    LengthSign(b, sqrt);
    NormalizeUnit(a, sqrt);
    if !IsZero(a) {
      UnitRoot(sqrt);
      DotScale(1.0 / Length(a, sqrt), a, b);
      assert Times(1.0, Length(b, sqrt)) == Length(b, sqrt);
      if Length(b, sqrt) != 0.0 { QuotientOfScaled(Dot(a, b), Length(a, sqrt), Length(b, sqrt)); }
    }
  }

  /** Similarity does not depend on the length of either vector. */
  lemma CosineIgnoresLength(a: Vec, b: Vec, sqrt: real -> real)
    requires IsSqrt(sqrt) && |a| == |b|
    ensures Cosine(Normalize(a, sqrt), b, sqrt) == Cosine(a, b, sqrt)
    ensures Cosine(a, Normalize(b, sqrt), sqrt) == Cosine(a, b, sqrt)
    ensures Cosine(Normalize(a, sqrt), Normalize(b, sqrt), sqrt) == Cosine(a, b, sqrt)
  {
    CosineOfNormalized(a, b, sqrt);
    CosineOfNormalized(b, a, sqrt);
    CosineSymmetric(a, b, sqrt);
    CosineSymmetric(a, Normalize(b, sqrt), sqrt);
    CosineOfNormalized(a, Normalize(b, sqrt), sqrt);
  }

  // ---- Taste ----

  datatype Taste = Taste(vector: Vec, weight: real)

  ghost predicate SameLength(vectors: seq<Vec>, n: nat) {
    forall i :: 0 <= i < |vectors| ==> |vectors[i]| == n
  }

  function Sum(vectors: seq<Vec>, n: nat): (r: Vec)
    requires SameLength(vectors, n)
    ensures |r| == n
  {
    if vectors == [] then seq(n, i => 0.0) else Add(vectors[0], Sum(vectors[1..], n))
  }

  /** `[sum(column) / len(vectors) for column in zip(*vectors)]` */
  function Mean(vectors: seq<Vec>): (r: Vec)
    requires vectors != [] && SameLength(vectors, |vectors[0]|)
    ensures |r| == |vectors[0]|
  {
    Divided(Sum(vectors, |vectors[0]|), |vectors| as real)
  }

  function FromVectors(vectors: seq<Vec>, weight: real, sqrt: real -> real): Option<Taste>
    requires vectors != [] ==> SameLength(vectors, |vectors[0]|)
  {
    if vectors == [] then None else Some(Taste(Normalize(Mean(vectors), sqrt), weight))
  }

  function Blend(taste: Taste, query: Vec, sqrt: real -> real): (r: Vec)
    requires |query| == |taste.vector|
    ensures |r| == |query|
  {
    Add(Scale(1.0 - taste.weight, Normalize(query, sqrt)), Scale(taste.weight, taste.vector))
  }

  function Apply(taste: Taste, query: Vec, sqrt: real -> real): (r: Vec)
    requires |query| == |taste.vector|
    ensures |r| == |query|
  {
    Normalize(Blend(taste, query, sqrt), sqrt)
  }

  /** What an item scores for the leaned query, before normalising. */
  function Leaning(taste: Taste, query: Vec, item: Vec, sqrt: real -> real): real
    requires |query| == |taste.vector| == |item|
  {
    Times(1.0 - taste.weight, Dot(Normalize(query, sqrt), item)) + Times(taste.weight, Dot(taste.vector, item))
  }

  lemma {:induction false} BlendDot(taste: Taste, query: Vec, item: Vec, sqrt: real -> real)
    requires |query| == |taste.vector| == |item|
    ensures Dot(Blend(taste, query, sqrt), item) == Leaning(taste, query, item, sqrt)
  {
    DotCombination(1.0 - taste.weight, Normalize(query, sqrt), taste.weight, taste.vector, item);
  }

  /** How much the leaned query is stretched: one number for all items. */
  ghost function Stretch(taste: Taste, query: Vec, sqrt: real -> real): (c: real)
    requires IsSqrt(sqrt) && |query| == |taste.vector|
    ensures c > 0.0
  {
    var blend := Blend(taste, query, sqrt);
    NormalizeUnit(blend, sqrt);
    if IsZero(blend) then 1.0 else Reciprocal(Length(blend, sqrt)); 1.0 / Length(blend, sqrt)
  }

  /** `apply` gives a unit vector unless the blend is zero, and orders all items by
      (1 - w) * (unit query . item) + w * (taste . item): it multiplies that by one positive
      factor. */
  lemma {:induction false} ApplyLeans(taste: Taste, query: Vec, item: Vec, sqrt: real -> real)
    requires IsSqrt(sqrt) && |query| == |taste.vector| == |item|
    ensures var v := Apply(taste, query, sqrt);
            && (if IsZero(Blend(taste, query, sqrt)) then IsZero(v) else Dot(v, v) == 1.0)
            && Dot(v, item) == Times(Stretch(taste, query, sqrt), Leaning(taste, query, item, sqrt))
  {
    var blend := Blend(taste, query, sqrt);
    NormalizeUnit(blend, sqrt);
    BlendDot(taste, query, item, sqrt);
    if !IsZero(blend) {
      DotScale(1.0 / Length(blend, sqrt), blend, item);
    }
  }

  lemma {:induction false} LeaningOrder(taste: Taste, query: Vec, x: Vec, y: Vec, sqrt: real -> real)
    requires IsSqrt(sqrt) && |query| == |taste.vector| == |x| == |y|
    ensures var v := Apply(taste, query, sqrt);
            Dot(v, x) < Dot(v, y) <==> Leaning(taste, query, x, sqrt) < Leaning(taste, query, y, sqrt)
  {
    ApplyLeans(taste, query, x, sqrt);
    ApplyLeans(taste, query, y, sqrt);
    Larger(Stretch(taste, query, sqrt), Leaning(taste, query, x, sqrt), Leaning(taste, query, y, sqrt));
  }

  function TotalSimilarity(vectors: seq<Vec>, item: Vec): real
    requires SameLength(vectors, |item|)
  {
    if vectors == [] then 0.0 else Dot(vectors[0], item) + TotalSimilarity(vectors[1..], item)
  }

  lemma {:induction false} SumSimilarity(vectors: seq<Vec>, item: Vec)
    requires SameLength(vectors, |item|)
    ensures Dot(Sum(vectors, |item|), item) == TotalSimilarity(vectors, item)
  {
    if vectors == [] {
      DotSymmetric(Sum(vectors, |item|), item);
      DotZero(item, Sum(vectors, |item|));
    } else {
      SumSimilarity(vectors[1..], item);
      DotAdd(vectors[0], Sum(vectors[1..], |item|), item);
    }
  }

  lemma {:induction false} ScaleZero(c: real, v: Vec)
    requires c > 0.0
    ensures IsZero(Scale(c, v)) <==> IsZero(v)
  {
    if v != [] {
      ScaleZero(c, v[1..]);
      assert Scale(c, v)[1..] == Scale(c, v[1..]);
      Positive(c, v[0]);
      ZeroTail(v);
      ZeroTail(Scale(c, v));
    }
  }

  /** The positive factor between a taste and the sum of the liked vectors. */
  ghost function TasteFactor(vectors: seq<Vec>, sqrt: real -> real): (c: real)
    requires IsSqrt(sqrt) && vectors != [] && SameLength(vectors, |vectors[0]|)
    ensures c > 0.0
  {
    var mean, n := Mean(vectors), |vectors| as real;
    NormalizeUnit(mean, sqrt);
    Reciprocal(n);
    if IsZero(mean) then 1.0 / n
    else
      Reciprocal(Length(mean, sqrt));
      Positive(1.0 / Length(mean, sqrt), 1.0 / n);
      Times(1.0 / Length(mean, sqrt), 1.0 / n)
  }

  /** A taste is of unit length exactly when the liked vectors do not cancel out, and then orders
      items by their total similarity to the liked ones. */
  lemma {:induction false} TasteFollowsLikes(vectors: seq<Vec>, weight: real, item: Vec, sqrt: real -> real)
    requires IsSqrt(sqrt) && vectors != [] && SameLength(vectors, |item|)
    ensures var taste := FromVectors(vectors, weight, sqrt).value;
            && |taste.vector| == |item| && taste.weight == weight
            && Dot(taste.vector, taste.vector) == (if IsZero(Sum(vectors, |item|)) then 0.0 else 1.0)
            && Dot(taste.vector, item) == Times(TasteFactor(vectors, sqrt), TotalSimilarity(vectors, item))
  {
    var sum, mean, n := Sum(vectors, |item|), Mean(vectors), |vectors| as real;
    DividedIsScale(sum, n);
    Reciprocal(n);
    ScaleZero(1.0 / n, sum);
    NormalizeUnit(mean, sqrt);
    DotScale(1.0 / n, sum, item);
    SumSimilarity(vectors, item);
    if !IsZero(mean) {
      var c := 1.0 / Length(mean, sqrt);
      DotScale(c, mean, item);
      Associate(c, 1.0 / n, TotalSimilarity(vectors, item));
    }
  }

  /** The part of `item` that lies along `v`; none along the zero vector. */
  function Along(v: Vec, item: Vec, sqrt: real -> real): real
    requires |v| == |item|
  {
    var length := sqrt(Dot(v, v));
    if length == 0.0 then 0.0 else Dot(v, item) / length
  }

  lemma {:induction false} NormalizeDot(v: Vec, item: Vec, sqrt: real -> real)
    requires IsSqrt(sqrt) && |v| == |item|
    ensures Dot(Normalize(v, sqrt), item) == Along(v, item, sqrt)
  {
    NormalizeUnit(v, sqrt);
    LengthSign(v, sqrt);
    if IsZero(v) {
      DotSymmetric(v, item);
      DotZero(item, v);
    } else {
      DotScale(1.0 / Length(v, sqrt), v, item);
      Divide(Dot(v, item), Length(v, sqrt));
    }
  }

  lemma SameRoot(x: real, y: real)
    requires 0.0 <= x && 0.0 <= y && Times(x, x) == Times(y, y)
    ensures x == y
  {
    assert Times(x + y, x - y) == Times(x, x) - Times(y, y);
    if x + y > 0.0 { Positive(x + y, x - y); }
  }

  lemma {:induction false} LengthOfScaled(c: real, v: Vec, sqrt: real -> real)
    requires IsSqrt(sqrt) && c > 0.0
    ensures Length(Scale(c, v), sqrt) == Times(c, Length(v, sqrt))
  {
    LengthSign(v, sqrt);
    LengthSign(Scale(c, v), sqrt);
    DotScale(c, v, Scale(c, v));
    DotSymmetric(v, Scale(c, v));
    DotScale(c, v, v);
    NonNegative(c, Length(v, sqrt));
    var l := Length(v, sqrt);
    assert Times(Times(c, l), Times(c, l)) == Times(c, Times(c, Times(l, l)));
    SameRoot(Length(Scale(c, v), sqrt), Times(c, l));
  }

  /** Only the direction of `v` counts. */
  lemma {:induction false} AlongScaled(c: real, v: Vec, item: Vec, sqrt: real -> real)
    requires IsSqrt(sqrt) && c > 0.0 && |v| == |item|
    ensures Along(Scale(c, v), item, sqrt) == Along(v, item, sqrt)
  {
    var l, d := Length(v, sqrt), Dot(v, item);
    LengthOfScaled(c, v, sqrt);
    DotScale(c, v, item);
    LengthSign(v, sqrt);
    assert Times(c, 0.0) == 0.0;
    if l != 0.0 { Cancel(c, d, l); }
  }

  lemma Cancel(c: real, d: real, l: real)
    requires c > 0.0 && l > 0.0
    ensures Times(c, l) > 0.0 && Times(c, d) / Times(c, l) == d / l
  {
    Positive(c, l);
    assert (c * d) / (c * l) == d / l;
  }

  /** A taste looks along the sum of the liked vectors, and a query is leaned by what lies along its own vector and
      along that sum, in the taste's proportion. */
  lemma {:induction false} LeaningIs(vectors: seq<Vec>, weight: real, query: Vec, item: Vec, sqrt: real -> real)
    requires IsSqrt(sqrt) && vectors != [] && SameLength(vectors, |item|) && |query| == |item|
    ensures var taste := FromVectors(vectors, weight, sqrt).value;
            && |taste.vector| == |item|
            && Leaning(taste, query, item, sqrt)
               == Times(1.0 - weight, Along(query, item, sqrt)) + Times(weight, Along(Sum(vectors, |item|), item, sqrt))
  {
    var n := |vectors| as real;
    NormalizeDot(query, item, sqrt);
    NormalizeDot(Mean(vectors), item, sqrt);
    DividedIsScale(Sum(vectors, |item|), n);
    Reciprocal(n);
    AlongScaled(1.0 / n, Sum(vectors, |item|), item, sqrt);
  }

  /** An item's similarity has the sign of its dot product with the query, and a vector that is not zero is
      wholly similar to itself. */
  lemma {:induction false} CosineIs(a: Vec, b: Vec, sqrt: real -> real)
    requires IsSqrt(sqrt) && |a| == |b|
    ensures Cosine(a, b, sqrt) > 0.0 <==> Dot(a, b) > 0.0
    ensures Cosine(a, b, sqrt) < 0.0 <==> Dot(a, b) < 0.0
  {
    LengthSign(a, sqrt);
    LengthSign(b, sqrt);
    DotOfZero(a, b);
    var norm := Times(Length(a, sqrt), Length(b, sqrt));
    if IsZero(a) || IsZero(b) {
      assert norm == 0.0;
    } else {
      Positive(Length(a, sqrt), Length(b, sqrt));
      Reciprocal(norm);
      Divide(Dot(a, b), norm);
      Larger(1.0 / norm, 0.0, Dot(a, b));
      Larger(1.0 / norm, Dot(a, b), 0.0);
      assert Times(1.0 / norm, 0.0) == 0.0;
    }
  }

  lemma CosineOfSelf(a: Vec, sqrt: real -> real)
    requires IsSqrt(sqrt) && !IsZero(a)
    ensures Cosine(a, a, sqrt) == 1.0
  {
    LengthSign(a, sqrt);
    SquareNonNegative(a);
    Reciprocal(Dot(a, a));
    Divide(Dot(a, a), Dot(a, a));
  }

  lemma {:induction false} DotOfZero(a: Vec, b: Vec)
    requires |a| == |b|
    ensures IsZero(a) || IsZero(b) ==> Dot(a, b) == 0.0
  {
    if IsZero(b) { DotZero(a, b); }
    if IsZero(a) {
      DotSymmetric(a, b);
      DotZero(b, a);
    }
  }
}
