/** Cosine similarity over the reals, and why clamping it changes nothing (src/alvis/index/_math.py). */
module Cosine {
  import opened Models

  // sqrt, given by its defining axioms.
  ghost predicate IsSquareRoot(root: real -> real) {
    forall x :: x >= 0.0 ==> root(x) >= 0.0 && root(x) * root(x) == x
  }

  function Dot(a: Vector, b: Vector): real
    requires |a| == |b|
  {
    if a == [] then 0.0 else a[0] * b[0] + Dot(a[1..], b[1..])
  }

  function CosineSimilarity(root: real -> real, left: Vector, right: Vector): real
    requires |left| == |right|
  {
    var leftNorm, rightNorm := root(Dot(left, left)), root(Dot(right, right));
    if leftNorm == 0.0 || rightNorm == 0.0 then 0.0 else Quotient(Dot(left, right), leftNorm, rightNorm)
  }

  function Quotient(dot: real, m: real, n: real): real
    requires m != 0.0 && n != 0.0
  {
    dot / (m * n)
  }

  function Clamp(value: real): real {
    var low := if value < 1.0 then value else 1.0;
    if low > -1.0 then low else -1.0
  }

  lemma SquareIsNonNegative(x: real)
    ensures x * x >= 0.0
  {
  }

  lemma {:induction false} NormIsNonNegative(a: Vector)
    ensures Dot(a, a) >= 0.0
  {
    if a == [] {
    } else {
      NormIsNonNegative(a[1..]);
      SquareIsNonNegative(a[0]);
    }
  }

  lemma SquareGrows(s: real, t: real)
    requires 0.0 <= s < t
    ensures s * s < t * t
  {
    assert (t - s) * (t + s) == t * t - s * s;
    PositiveProduct(t - s, t + s);
  }

  lemma PositiveProduct(x: real, y: real)
    requires x > 0.0 && y > 0.0
    ensures x * y > 0.0
  {
  }

  lemma SquaresOrder(s: real, t: real)
    requires s >= 0.0 && s * s >= t * t
    ensures -s <= t <= s
  {
    if t > s {
      SquareGrows(s, t);
    } else if -t > s {
      SquareGrows(s, -t);
    }
  }

  predicate IsZero(v: Vector) {
    forall i :: 0 <= i < |v| ==> v[i] == 0.0
  }

  // A zero vector has product 0 with every vector.
  lemma {:induction false} DotOfZero(zero: Vector, v: Vector)
    requires |zero| == |v| && IsZero(zero)
    ensures Dot(zero, v) == 0.0 && Dot(v, zero) == 0.0
  {
    if v == [] {
    } else {
      DotOfZero(zero[1..], v[1..]);
      assert zero[0] == 0.0 && 0.0 * v[0] == 0.0 && v[0] * 0.0 == 0.0;
    }
  }

  function Square(x: real): real {
    x * x
  }

  lemma SameSign(x: real, y: real, product: real)
    requires product == x * y && ((x > 0.0 && y > 0.0) || (x < 0.0 && y < 0.0))
    ensures product > 0.0
  {
  }

  lemma SquareIsPositive(x: real)
    requires x != 0.0
    ensures Square(x) > 0.0
  {
    SameSign(x, x, Square(x));
  }

  lemma PositiveSum(square: real, rest: real, dot: real)
    requires square > 0.0 && rest >= 0.0 && dot == square + rest
    ensures dot > 0.0
  {
  }

  lemma {:induction false} ZeroNormIff(v: Vector)
    ensures Dot(v, v) == 0.0 <==> IsZero(v)
  {
    if v == [] {
    } else {
      ZeroNormIff(v[1..]);
      NormIsNonNegative(v[1..]);
      assert IsZero(v) <==> v[0] == 0.0 && IsZero(v[1..]) by {
        assert forall i :: 1 <= i < |v| ==> v[i] == v[1..][i - 1];
        assert forall i :: 0 <= i < |v[1..]| ==> v[1..][i] == v[i + 1];
      }
      if v[0] == 0.0 {
        assert Dot(v, v) == 0.0 * 0.0 + Dot(v[1..], v[1..]);
      } else {
        SquareIsPositive(v[0]);
        PositiveSum(Square(v[0]), Dot(v[1..], v[1..]), Dot(v, v));
      }
    }
  }

  // left - scale * right
  function Difference(left: Vector, scale: real, right: Vector): (v: Vector)
    requires |left| == |right|
    ensures |v| == |left| && forall i :: 0 <= i < |v| ==> v[i] == left[i] - scale * right[i]
  {
    seq(|left|, i requires 0 <= i < |left| => left[i] - scale * right[i])
  }

  // |x|^2 - 2 s (x y) + s^2 |y|^2
  function Expanded(xx: real, s: real, xy: real, yy: real): real {
    xx - 2.0 * s * xy + s * s * yy
  }

  lemma SquareOfDifference(x: real, y: real, s: real)
    ensures (x - s * y) * (x - s * y) == Expanded(x * x, s, x * y, y * y)
  {
  }

  lemma ExpandedSum(s: real, xx: real, xy: real, yy: real, a: real, b: real, c: real)
    ensures Expanded(xx, s, xy, yy) + Expanded(a, s, b, c) == Expanded(xx + a, s, xy + b, yy + c)
  {
  }

  lemma FirstDifference(left: Vector, s: real, right: Vector)
    requires |left| == |right| > 0
    ensures var difference := Difference(left, s, right);
            Dot(difference, difference) == Expanded(left[0] * left[0], s, left[0] * right[0], right[0] * right[0])
                                           + Dot(difference[1..], difference[1..])
  {
    SquareOfDifference(left[0], right[0], s);
  }

  lemma DifferenceOfRest(left: Vector, s: real, right: Vector)
    requires |left| == |right| > 0
    ensures Difference(left, s, right)[1..] == Difference(left[1..], s, right[1..])
  {
    var rest := Difference(left[1..], s, right[1..]);
    forall i | 0 <= i < |rest| ensures Difference(left, s, right)[1..][i] == rest[i] {
      assert left[1..][i] == left[i + 1] && right[1..][i] == right[i + 1];
    }
  }

  lemma {:induction false} DistanceExpands(left: Vector, s: real, right: Vector)
    requires |left| == |right|
    ensures Dot(Difference(left, s, right), Difference(left, s, right))
         == Expanded(Dot(left, left), s, Dot(left, right), Dot(right, right))
  {
    if left == [] {
      assert Expanded(0.0, s, 0.0, 0.0) == 0.0;
    } else {
      DistanceExpands(left[1..], s, right[1..]);
      DifferenceOfRest(left, s, right);
      FirstDifference(left, s, right);
      ExpandedSum(s, left[0] * left[0], left[0] * right[0], right[0] * right[0],
                  Dot(left[1..], left[1..]), Dot(left[1..], right[1..]), Dot(right[1..], right[1..]));
    }
  }

  lemma PositiveRatio(x: real, r: real)
    requires x > 0.0 && r > 0.0
    ensures x / r > 0.0 && x / r * r == x
  {
  }

  // The least value of l - 2 s dot + s^2 r, at s = dot / r, is not negative only if dot^2 <= l r.
  lemma LeastValue(l: real, dot: real, r: real)
    requires r > 0.0 && Expanded(l, dot / r, dot, r) >= 0.0
    ensures dot * dot <= l * r
  {
    var s := dot / r;
    assert s * r == dot;
    assert s * s * r == s * dot;
    assert l - s * dot >= 0.0;
    ScaledOrder(s * dot, l, r);
    assert s * dot * r == dot * dot;
  }

  lemma ScaledOrder(x: real, y: real, r: real)
    requires x <= y && r > 0.0
    ensures x * r <= y * r
  {
  }

  lemma CauchySchwarz(a: Vector, b: Vector)
    requires |a| == |b|
    ensures Dot(a, b) * Dot(a, b) <= Dot(a, a) * Dot(b, b)
  {
    var r := Dot(b, b);
    NormIsNonNegative(b);
    if r == 0.0 {
      ZeroNormIff(b);
      DotOfZero(b, a);
    } else {
      NormIsNonNegative(Difference(a, Dot(a, b) / r, b));
      DistanceExpands(a, Dot(a, b) / r, b);
      LeastValue(Dot(a, a), Dot(a, b), r);
    }
  }

  lemma QuotientInUnit(dot: real, m: real, n: real)
    requires m != 0.0 && n != 0.0 && m * n > 0.0 && -(m * n) <= dot <= m * n
    ensures -1.0 <= Quotient(dot, m, n) <= 1.0
  {
    var norms := m * n;
    var q := dot / norms;
    assert q * norms == dot;
  }

  // A product bounded by the norms' squares is bounded by the norms.
  lemma BoundedByNorms(m: real, n: real, dot: real)
    requires m > 0.0 && n > 0.0 && dot * dot <= m * m * (n * n)
    ensures m * n > 0.0 && -(m * n) <= dot <= m * n
  {
    PositiveProduct(m, n);
    assert m * n * (m * n) == m * m * (n * n);
    SquaresOrder(m * n, dot);
  }

  // Cosine similarity of equally long vectors lies in [-1, 1].
  lemma CosineInUnit(root: real -> real, left: Vector, right: Vector)
    requires IsSquareRoot(root) && |left| == |right|
    ensures -1.0 <= CosineSimilarity(root, left, right) <= 1.0
  {
    NormIsNonNegative(left);
    NormIsNonNegative(right);
    var m, n, dot := root(Dot(left, left)), root(Dot(right, right)), Dot(left, right);
    if m > 0.0 && n > 0.0 {
      CauchySchwarz(left, right);
      assert m * m == Dot(left, left) && n * n == Dot(right, right);
      BoundedByNorms(m, n, dot);
      QuotientInUnit(dot, m, n);
    } else {
      assert m == 0.0 || n == 0.0;
    }
  }

  // So clamping it changes nothing.
  lemma ClampIsIdentity(root: real -> real, left: Vector, right: Vector)
    requires IsSquareRoot(root) && |left| == |right|
    ensures Clamp(CosineSimilarity(root, left, right)) == CosineSimilarity(root, left, right)
  {
    CosineInUnit(root, left, right);
  }

  lemma NoDotWithoutNorm(root: real -> real, left: Vector, right: Vector)
    requires IsSquareRoot(root) && |left| == |right|
    requires root(Dot(left, left)) == 0.0 || root(Dot(right, right)) == 0.0
    ensures Dot(left, right) == 0.0
  {
    NormIsNonNegative(left);
    NormIsNonNegative(right);
    CauchySchwarz(left, right);
    var dot := Dot(left, right);
    assert Dot(left, left) == 0.0 || Dot(right, right) == 0.0;
    assert dot * dot <= 0.0;
    SquaresOrder(0.0, dot);
  }

  lemma QuotientSign(dot: real, m: real, n: real)
    requires m > 0.0 && n > 0.0
    ensures m * n > 0.0 && (Quotient(dot, m, n) >= 0.0 <==> dot >= 0.0)
  {
    PositiveProduct(m, n);
    var norms := m * n;
    var q := dot / norms;
    assert q * norms == dot;
    if q < 0.0 {
      PositiveProduct(-q, norms);
      assert -q * norms == -dot;
    }
  }

  // A score lies in [0, 1] exactly when the vectors do not point away from each other.
  lemma ScoreInUnitIntervalIff(root: real -> real, left: Vector, right: Vector)
    requires IsSquareRoot(root) && |left| == |right|
    ensures 0.0 <= Clamp(CosineSimilarity(root, left, right)) <= 1.0 <==> Dot(left, right) >= 0.0
  {
    CosineInUnit(root, left, right);
    ClampIsIdentity(root, left, right);
    NormIsNonNegative(left);
    NormIsNonNegative(right);
    var m, n := root(Dot(left, left)), root(Dot(right, right));
    if m == 0.0 || n == 0.0 {
      NoDotWithoutNorm(root, left, right);
    } else {
      QuotientSign(Dot(left, right), m, n);
    }
  }

  lemma OppositeScoresBelowZero(root: real -> real)
    requires IsSquareRoot(root)
    ensures Clamp(CosineSimilarity(root, [1.0], [-1.0])) < 0.0
  {
    assert Dot([1.0], [-1.0]) == 1.0 * -1.0 + Dot([], []);
    ScoreInUnitIntervalIff(root, [1.0], [-1.0]);
    CosineInUnit(root, [1.0], [-1.0]);
  }

  /* What the dot product is, coordinate by coordinate. */

  // A change of one coordinate changes the product by that much of the other vector's coordinate.
  lemma {:induction false} DotAtCoordinate(a: Vector, b: Vector, i: nat, x: real)
    requires |a| == |b| && i < |a|
    ensures Dot(a[i := a[i] + x], b) == Dot(a, b) + x * b[i]
  {
    var changed := a[i := a[i] + x];
    if i == 0 {
      assert changed[1..] == a[1..];
      assert (a[0] + x) * b[0] == a[0] * b[0] + x * b[0];
    } else {
      DotAtCoordinate(a[1..], b[1..], i - 1, x);
      assert changed[1..] == a[1..][i - 1 := a[1..][i - 1] + x];
    }
  }

  lemma {:induction false} DotCommutes(a: Vector, b: Vector)
    requires |a| == |b|
    ensures Dot(a, b) == Dot(b, a)
  {
    if a == [] {
    } else {
      DotCommutes(a[1..], b[1..]);
    }
  }

  // Similarity times both norms is the dot product, unless a vector has no length.
  lemma CosineTimesNorms(root: real -> real, left: Vector, right: Vector)
    requires IsSquareRoot(root) && |left| == |right|
    ensures var m, n := root(Dot(left, left)), root(Dot(right, right));
            CosineSimilarity(root, left, right) * (m * n) == Dot(left, right)
  {
    var m, n, dot := root(Dot(left, left)), root(Dot(right, right)), Dot(left, right);
    NormIsNonNegative(left);
    NormIsNonNegative(right);
    if m == 0.0 || n == 0.0 {
      NoDotWithoutNorm(root, left, right);
      assert m * n == 0.0;
    } else {
      PositiveProduct(m, n);
      TimesNorms(dot, m * n);
    }
  }

  lemma TimesNorms(dot: real, norms: real)
    requires norms > 0.0
    ensures dot / norms * norms == dot
  {
  }

  /* When a similarity is 1. */

  // One vector is the other times a positive factor, in every coordinate.
  ghost predicate SameDirection(left: Vector, right: Vector)
    requires |left| == |right|
  {
    exists s: real :: s > 0.0 && IsScaled(left, s, right)
  }

  predicate IsScaled(left: Vector, s: real, right: Vector)
    requires |left| == |right|
  {
    forall i :: 0 <= i < |left| ==> left[i] == s * right[i]
  }

  lemma NormIsPositive(root: real -> real, v: Vector)
    requires IsSquareRoot(root) && !IsZero(v)
    ensures root(Dot(v, v)) > 0.0 && Dot(v, v) > 0.0
  {
    NormIsNonNegative(v);
    ZeroNormIff(v);
    var norm := root(Dot(v, v));
    assert norm == 0.0 ==> norm * norm == 0.0 * 0.0;
  }

  lemma ScaleFacts(dot: real, l: real, r: real, s: real)
    requires r > 0.0 && dot > 0.0 && dot * dot == l * r && s == dot / r
    ensures s > 0.0 && Expanded(l, s, dot, r) == 0.0
  {
    PositiveRatio(dot, r);
    assert s * s * r == s * dot;
    assert s * dot * r == l * r;
    SameFactor(s * dot, l, r);
  }

  lemma SameFactor(x: real, y: real, r: real)
    requires r != 0.0 && x * r == y * r
    ensures x == y
  {
  }

  lemma SquareOfProduct(m: real, n: real, l: real, r: real)
    requires m * m == l && n * n == r
    ensures m * n * (m * n) == l * r
  {
    assert m * n * (m * n) == m * m * (n * n);
  }

  lemma SimilarityOneScales(root: real -> real, left: Vector, right: Vector)
    requires IsSquareRoot(root) && |left| == |right| && !IsZero(left) && !IsZero(right)
    requires CosineSimilarity(root, left, right) == 1.0
    ensures SameDirection(left, right)
  {
    var m, n, dot := root(Dot(left, left)), root(Dot(right, right)), Dot(left, right);
    NormIsPositive(root, left);
    NormIsPositive(root, right);
    CosineTimesNorms(root, left, right);
    PositiveProduct(m, n);
    var l, r := Dot(left, left), Dot(right, right);
    var s := dot / r;
    SquareOfProduct(m, n, l, r);
    ScaleFacts(dot, l, r, s);
    DistanceExpands(left, s, right);
    ZeroNormIff(Difference(left, s, right));
    forall i | 0 <= i < |left| ensures left[i] == s * right[i] {
      assert Difference(left, s, right)[i] == 0.0;
    }
    assert IsScaled(left, s, right);
  }

  lemma {:induction false} DotOfScaled(left: Vector, s: real, right: Vector, other: Vector)
    requires |left| == |right| == |other| && IsScaled(left, s, right)
    ensures Dot(left, other) == s * Dot(right, other)
  {
    if left == [] {
    } else {
      DotOfScaled(left[1..], s, right[1..], other[1..]);
      assert left[0] * other[0] == s * (right[0] * other[0]);
      assert s * (right[0] * other[0]) + s * Dot(right[1..], other[1..]) == s * Dot(right, other);
    }
  }

  lemma EqualSquares(x: real, y: real)
    requires x > 0.0 && y > 0.0 && x * x == y * y
    ensures x == y
  {
    SquaresOrder(x, y);
    SquaresOrder(y, x);
  }

  lemma ScaledSimilarityIsOne(root: real -> real, left: Vector, right: Vector, s: real)
    requires IsSquareRoot(root) && |left| == |right| && !IsZero(left) && !IsZero(right)
    requires s > 0.0 && IsScaled(left, s, right)
    ensures CosineSimilarity(root, left, right) == 1.0
  {
    var m, n, r := root(Dot(left, left)), root(Dot(right, right)), Dot(right, right);
    NormIsPositive(root, left);
    NormIsPositive(root, right);
    DotOfScaled(left, s, right, right);
    DotOfScaled(left, s, right, left);
    DotCommutes(left, right);
    CosineTimesNorms(root, left, right);
    OneOfScaled(m, n, Dot(left, left), r, Dot(left, right), s, CosineSimilarity(root, left, right));
  }

  // The numbers of a scaled vector: its norm times the other's is the product.
  lemma OneOfScaled(m: real, n: real, l: real, r: real, dot: real, s: real, similarity: real)
    requires m > 0.0 && n > 0.0 && s > 0.0 && r > 0.0 && m * m == l && n * n == r
    requires dot == s * r && l == s * dot && similarity * (m * n) == dot
    ensures similarity == 1.0
  {
    PositiveProduct(m, n);
    PositiveProduct(s, r);
    SquareOfProduct(m, n, l, r);
    assert l * r == s * dot * r == dot * dot;
    EqualSquares(m * n, dot);
    SameFactor(similarity, 1.0, dot);
  }

  // Two vectors that are not zero have similarity 1 exactly when they point the same way.
  lemma SimilarityIsOneIff(root: real -> real, left: Vector, right: Vector)
    requires IsSquareRoot(root) && |left| == |right| && !IsZero(left) && !IsZero(right)
    ensures CosineSimilarity(root, left, right) == 1.0 <==> SameDirection(left, right)
  {
    if CosineSimilarity(root, left, right) == 1.0 {
      SimilarityOneScales(root, left, right);
    }
    if s: real :| s > 0.0 && IsScaled(left, s, right) {
      ScaledSimilarityIsOne(root, left, right, s);
    }
  }
}
