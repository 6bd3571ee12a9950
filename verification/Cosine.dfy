/** backend/open_webui/retrieval/utils.py: `RerankCompressor._cosine_similarity_scores`,
  * over exact reals. `sqrt` is a parameter, the square root of every non-negative number.
  */
module Cosine {
  ghost predicate IsSqrt(sqrt: real -> real) {
    forall x :: x >= 0.0 ==> sqrt(x) >= 0.0 && sqrt(x) * sqrt(x) == x
  }

  /** Stops with the shorter vector, as `zip` does. */
  function Dot(a: seq<real>, b: seq<real>): real {
    if a == [] || b == [] then 0.0 else a[0] * b[0] + Dot(a[1..], b[1..])
  }

  function SumSquares(a: seq<real>): (s: real)
    ensures s >= 0.0
  {
    if a == [] then 0.0 else a[0] * a[0] + SumSquares(a[1..])
  }

  /** The length of a vector, or one where that is zero. */
  function Norm(sqrt: real -> real, a: seq<real>): real {
    var n := sqrt(SumSquares(a));
    if n == 0.0 then 1.0 else n
  }

  lemma NormCovers(sqrt: real -> real, a: seq<real>)
    requires IsSqrt(sqrt)
    ensures Root(SumSquares(a), Norm(sqrt, a))
  {
  }

  lemma NormIsPositive(sqrt: real -> real, a: seq<real>)
    requires IsSqrt(sqrt)
    ensures Norm(sqrt, a) > 0.0
  {
  }

  lemma ProductIsPositive(x: real, y: real)
    requires x > 0.0 && y > 0.0
    ensures x * y > 0.0
  {
  }

  function Similarity(sqrt: real -> real, query: seq<real>, document: seq<real>): real
    requires IsSqrt(sqrt)
  {
    NormIsPositive(sqrt, query);
    NormIsPositive(sqrt, document);
    ProductIsPositive(Norm(sqrt, query), Norm(sqrt, document));
    Dot(query, document) / (Norm(sqrt, query) * Norm(sqrt, document))
  }

  method SumOfSquares(a: seq<real>) returns (s: real)
    ensures s == SumSquares(a)
  {
    s := 0.0;
    for i := 0 to |a|
      invariant s + SumSquares(a[i..]) == SumSquares(a)
    {
      assert a[i..][1..] == a[i + 1..];
      s := s + a[i] * a[i];
    }
  }

  method DotProduct(a: seq<real>, b: seq<real>) returns (s: real)
    ensures s == Dot(a, b)
  {
    s := 0.0;
    var i := 0;
    while i < |a| && i < |b|
      invariant i <= |a| && i <= |b|
      invariant s + Dot(a[i..], b[i..]) == Dot(a, b)
    {
      assert a[i..][1..] == a[i + 1..] && b[i..][1..] == b[i + 1..];
      s := s + a[i] * b[i];
      i := i + 1;
    }
  }

  method CosineSimilarityScores(sqrt: real -> real, query: seq<real>, documents: seq<seq<real>>)
    returns (scores: seq<real>)
    requires IsSqrt(sqrt)
    ensures |scores| == |documents|
    ensures forall i :: 0 <= i < |scores| ==> scores[i] == Similarity(sqrt, query, documents[i])
    ensures forall i :: 0 <= i < |scores| ==> -1.0 <= scores[i] <= 1.0
  {
    var squares := SumOfSquares(query);
    var queryNorm := if sqrt(squares) == 0.0 then 1.0 else sqrt(squares);
    scores := [];
    for i := 0 to |documents|
      invariant |scores| == i
      invariant forall j :: 0 <= j < i ==> scores[j] == Similarity(sqrt, query, documents[j])
      invariant forall j :: 0 <= j < i ==> -1.0 <= scores[j] <= 1.0
    {
      var documentSquares := SumOfSquares(documents[i]);
      var documentNorm := if sqrt(documentSquares) == 0.0 then 1.0 else sqrt(documentSquares);
      var dot := DotProduct(query, documents[i]);
      var score := Quotient(sqrt, query, documents[i], dot, queryNorm, documentNorm);
      scores := scores + [score];
    }
  }

  method Quotient(
    sqrt: real -> real, ghost query: seq<real>, ghost document: seq<real>,
    dot: real, queryNorm: real, documentNorm: real
  )
    returns (score: real)
    requires IsSqrt(sqrt) && dot == Dot(query, document)
    requires queryNorm == Norm(sqrt, query) && documentNorm == Norm(sqrt, document)
    ensures score == Similarity(sqrt, query, document) && -1.0 <= score <= 1.0
  {
    NormIsPositive(sqrt, query);
    NormIsPositive(sqrt, document);
    ProductIsPositive(queryNorm, documentNorm);
    score := dot / (queryNorm * documentNorm);
    assert score == Similarity(sqrt, query, document);
    SimilarityIsBounded(sqrt, query, document);
  }

  // ---------- Cauchy-Schwarz ----------

  lemma SquareIsNonNegative(x: real)
    ensures x * x >= 0.0
  {
  }

  lemma ScaleInequality(c: real, x: real, y: real)
    requires c >= 0.0 && x <= y
    ensures c * x <= c * y
  {
  }

  /** A number whose square is at most p * q is at most their mean. */
  lemma GeometricMean(p: real, q: real, r: real)
    requires p >= 0.0 && q >= 0.0 && r * r <= p * q
    ensures 2.0 * r <= p + q
  {
    if 2.0 * r > p + q {
      var s := p + q;
      ScaleInequality(s, s, 2.0 * r);
      ScaleInequality(2.0 * r, s, 2.0 * r);
      assert s * s <= 4.0 * (r * r);
      assert s * s == 4.0 * (p * q) + (p - q) * (p - q);
      SquareIsNonNegative(p - q);
      StrictSquare(s, 2.0 * r);
    }
  }

  lemma StrictSquare(s: real, t: real)
    requires 0.0 <= s < t
    ensures s * s < t * t
  {
    assert t * t - s * s == (t - s) * (t + s);
    ProductIsPositive(t - s, t + s);
  }

  lemma {:induction false} CauchySchwarz(a: seq<real>, b: seq<real>)
    ensures ProductBound(Dot(a, b), SumSquares(a), SumSquares(b))
  {
    hide ProductBound, Dot, SumSquares;
    if a == [] || b == [] {
      NoTerm(a, b);
      ZeroIsBounded(SumSquares(a), SumSquares(b));
    } else {
      CauchySchwarz(a[1..], b[1..]);
      FirstTerm(a, b);
      CauchySchwarzNext(a[0], b[0], Dot(a[1..], b[1..]), SumSquares(a[1..]), SumSquares(b[1..]),
                        Dot(a, b), SumSquares(a), SumSquares(b));
    }
  }

  lemma ProductOfNonNegative(x: real, y: real)
    requires x >= 0.0 && y >= 0.0
    ensures x * y >= 0.0
  {
  }

  lemma CauchySchwarzNext(x: real, y: real, d: real, s: real, t: real, dot: real, p: real, q: real)
    requires s >= 0.0 && t >= 0.0 && ProductBound(d, s, t)
    requires dot == x * y + d && p == x * x + s && q == y * y + t
    ensures ProductBound(dot, p, q)
  {
    hide ProductBound;
    CauchySchwarzStep(x, y, d, s, t);
  }

  lemma NoTerm(a: seq<real>, b: seq<real>)
    requires a == [] || b == []
    ensures Dot(a, b) == 0.0
  {
  }

  lemma FirstTerm(a: seq<real>, b: seq<real>)
    requires a != [] && b != []
    ensures Dot(a, b) == a[0] * b[0] + Dot(a[1..], b[1..])
    ensures SumSquares(a) == a[0] * a[0] + SumSquares(a[1..])
    ensures SumSquares(b) == b[0] * b[0] + SumSquares(b[1..])
  {
  }

  lemma ZeroIsBounded(s: real, t: real)
    requires s >= 0.0 && t >= 0.0
    ensures ProductBound(0.0, s, t)
  {
    ProductOfNonNegative(s, t);
  }

  lemma CauchySchwarzStep(x: real, y: real, d: real, s: real, t: real)
    requires s >= 0.0 && t >= 0.0 && ProductBound(d, s, t)
    ensures ProductBound(x * y + d, x * x + s, y * y + t)
  {
    var p, q, r := x * x * t, y * y * s, x * y * d;
    SquareIsNonNegative(x);
    SquareIsNonNegative(y);
    SquareIsNonNegative(x * y);
    ProductOfNonNegative(x * x, t);
    ProductOfNonNegative(y * y, s);
    assert r * r == (x * y) * (x * y) * (d * d);
    ScaleInequality((x * y) * (x * y), d * d, s * t);
    assert p * q == (x * y) * (x * y) * (s * t);
    GeometricMean(p, q, r);
    assert (x * y + d) * (x * y + d) == (x * y) * (x * y) + 2.0 * r + d * d;
    assert (x * x + s) * (y * y + t) == (x * y) * (x * y) + p + q + s * t;
  }

  ghost predicate Root(s: real, n: real) {
    0.0 <= s <= n * n && n > 0.0
  }

  ghost predicate Bounded(d: real, m: real, n: real) {
    -(m * n) <= d <= m * n
  }

  ghost predicate ProductBound(d: real, s: real, t: real) {
    d * d <= s * t
  }

  /** Bounds on the squares bound the number itself. */
  lemma RootBound(d: real, s: real, t: real, m: real, n: real)
    requires ProductBound(d, s, t) && Root(s, m) && Root(t, n)
    ensures Bounded(d, m, n)
  {
    ProductIsPositive(m, n);
    ProductIsPositive(n, n);
    ScaleInequality(s, t, n * n);
    ScaleInequality(n * n, s, m * m);
    assert (m * n) * (m * n) == (n * n) * (m * m);
    if d > m * n {
      StrictSquare(m * n, d);
    } else if d < -(m * n) {
      StrictSquare(m * n, -d);
    }
  }

  lemma DotIsBounded(sqrt: real -> real, query: seq<real>, document: seq<real>)
    requires IsSqrt(sqrt)
    ensures Bounded(Dot(query, document), Norm(sqrt, query), Norm(sqrt, document))
  {
    NormCovers(sqrt, query);
    NormCovers(sqrt, document);
    CauchySchwarz(query, document);
    RootBound(Dot(query, document), SumSquares(query), SumSquares(document), Norm(sqrt, query), Norm(sqrt, document));
  }

  lemma QuotientBound(d: real, n: real)
    requires n > 0.0 && -n <= d <= n
    ensures -1.0 <= d / n <= 1.0
  {
  }

  /** Every score lies in [-1, 1], for zero vectors and unequal lengths too. */
  lemma SimilarityIsBounded(sqrt: real -> real, query: seq<real>, document: seq<real>)
    requires IsSqrt(sqrt)
    ensures -1.0 <= Similarity(sqrt, query, document) <= 1.0
  {
    NormIsPositive(sqrt, query);
    NormIsPositive(sqrt, document);
    ProductIsPositive(Norm(sqrt, query), Norm(sqrt, document));
    DotIsBounded(sqrt, query, document);
    QuotientBound(Dot(query, document), Norm(sqrt, query) * Norm(sqrt, document));
  }

  function Negated(a: seq<real>): (r: seq<real>)
    ensures |r| == |a|
  {
    if a == [] then [] else [-a[0]] + Negated(a[1..])
  }

  lemma {:induction false} DotOfSelf(a: seq<real>)
    ensures Dot(a, a) == SumSquares(a)
  {
    if a != [] {
      DotOfSelf(a[1..]);
    }
  }

  lemma {:induction false} DotOfNegated(a: seq<real>)
    ensures Dot(a, Negated(a)) == -SumSquares(a) && SumSquares(Negated(a)) == SumSquares(a)
  {
    if a != [] {
      DotOfNegated(a[1..]);
      assert Negated(a)[1..] == Negated(a[1..]);
      assert a[0] * -a[0] == -(a[0] * a[0]) && -a[0] * -a[0] == a[0] * a[0];
    }
  }

  lemma RootOfPositive(sqrt: real -> real, a: seq<real>)
    requires IsSqrt(sqrt) && SumSquares(a) > 0.0
    ensures Norm(sqrt, a) * Norm(sqrt, a) == SumSquares(a)
  {
    var n := sqrt(SumSquares(a));
    assert n == 0.0 ==> n * n == 0.0;
  }

  lemma FullScore(q: real)
    requires q > 0.0
    ensures q / q == 1.0 && -q / q == -1.0
  {
  }

  /** Both ends are reached by every vector that is not zero: against itself, and its opposite. */
  lemma BoundsAreReached(sqrt: real -> real, a: seq<real>)
    requires IsSqrt(sqrt) && SumSquares(a) > 0.0
    ensures Similarity(sqrt, a, a) == 1.0 && Similarity(sqrt, a, Negated(a)) == -1.0
  {
    hide IsSqrt, SumSquares, Dot, Norm;
    DotOfSelf(a);
    DotOfNegated(a);
    RootOfPositive(sqrt, a);
    SameNorm(sqrt, a, Negated(a));
    SimilarityIs(sqrt, a, a, SumSquares(a));
    SimilarityIs(sqrt, a, Negated(a), SumSquares(a));
    FullScore(SumSquares(a));
  }

  lemma SimilarityIs(sqrt: real -> real, a: seq<real>, b: seq<real>, q: real)
    requires IsSqrt(sqrt) && q > 0.0 && Norm(sqrt, a) * Norm(sqrt, b) == q
    ensures Similarity(sqrt, a, b) == Dot(a, b) / q
  {
  }

  lemma SameNorm(sqrt: real -> real, a: seq<real>, b: seq<real>)
    requires SumSquares(a) == SumSquares(b)
    ensures Norm(sqrt, a) == Norm(sqrt, b)
  {
  }

  lemma {:induction false} DotOfZero(a: seq<real>, b: seq<real>)
    requires SumSquares(a) == 0.0
    ensures Dot(a, b) == 0.0 && Dot(b, a) == 0.0
  {
    if a != [] && b != [] {
      SquareIsNonNegative(a[0]);
      if a[0] != 0.0 {
        SquareIsPositive(a[0]);
      }
      DotOfZero(a[1..], b[1..]);
    }
  }

  lemma SquareIsPositive(x: real)
    requires x != 0.0
    ensures x * x > 0.0
  {
    if x > 0.0 {
      ProductIsPositive(x, x);
    } else {
      OppositeSquare(x, -x);
    }
  }

  lemma OppositeSquare(x: real, y: real)
    requires x + y == 0.0 && y > 0.0
    ensures x * x > 0.0
  {
    ProductIsPositive(y, y);
    assert x * x - y * y == (x - y) * (x + y);
  }

  /** A zero vector scores 0 against everything: the `or 1.0` divides nothing by one. */
  lemma ZeroScoresZero(sqrt: real -> real, a: seq<real>, b: seq<real>)
    requires IsSqrt(sqrt) && SumSquares(a) == 0.0
    ensures Similarity(sqrt, a, b) == 0.0 && Similarity(sqrt, b, a) == 0.0
  {
    DotOfZero(a, b);
    NormIsPositive(sqrt, a);
    NormIsPositive(sqrt, b);
    ProductIsPositive(Norm(sqrt, a), Norm(sqrt, b));
    ProductIsPositive(Norm(sqrt, b), Norm(sqrt, a));
    ZeroQuotient(Norm(sqrt, a) * Norm(sqrt, b));
    ZeroQuotient(Norm(sqrt, b) * Norm(sqrt, a));
  }

  lemma ZeroQuotient(d: real)
    requires d > 0.0
    ensures 0.0 / d == 0.0
  {
  }

  // ---------- sums, term by term ----------

  lemma {:induction false} SumsRunOn(a: seq<real>, b: seq<real>, c: seq<real>, d: seq<real>)
    requires |a| == |b|
    ensures Dot(a + c, b + d) == Dot(a, b) + Dot(c, d)
    ensures SumSquares(a + c) == SumSquares(a) + SumSquares(c)
    decreases |a|
  {
    if a == [] {
      assert a + c == c && b + d == d;
    } else {
      SumsRunOn(a[1..], b[1..], c, d);
      assert (a + c)[1..] == a[1..] + c && (b + d)[1..] == b[1..] + d;
    }
  }

  /** One term, and none where a vector has ended. */
  lemma OneTerm(x: real, y: real, c: seq<real>)
    ensures Dot([x], [y]) == x * y && SumSquares([x]) == x * x
    ensures Dot(c, []) == 0.0 && Dot([], c) == 0.0
  {
    assert [x][1..] == [] && [y][1..] == [];
  }

  /** A score is the dot product over the two lengths. */
  lemma ScoreTimesLengths(sqrt: real -> real, a: seq<real>, b: seq<real>)
    requires IsSqrt(sqrt) && SumSquares(a) > 0.0 && SumSquares(b) > 0.0
    ensures Similarity(sqrt, a, b) * (sqrt(SumSquares(a)) * sqrt(SumSquares(b))) == Dot(a, b)
  {
    hide SumSquares, Dot;
    var m, n := sqrt(SumSquares(a)), sqrt(SumSquares(b));
    assert m * m > 0.0 && n * n > 0.0;
    assert Norm(sqrt, a) == m && Norm(sqrt, b) == n;
    NormIsPositive(sqrt, a);
    NormIsPositive(sqrt, b);
    ProductIsPositive(m, n);
    QuotientTimes(Dot(a, b), m * n);
  }

  lemma QuotientTimes(d: real, q: real)
    requires q > 0.0
    ensures d / q * q == d
  {
  }
}
