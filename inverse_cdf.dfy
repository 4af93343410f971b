/** The inverse of the standard normal CDF, approximated by formula 26.2.23
    of Abramowitz and Stegun's Handbook of Mathematical Functions, and the
    wrapper that shrinks it by 0.7. Both source files carry the same code
    (free functions in Gaussian_Normalization.py, methods of `RGN` in
    rgn/rgn.py); it is modelled once here.

    The transformed variable t = sqrt(-2 ln p) needs a square root and a
    logarithm, which have no exact counterpart over the reals. It is a
    parameter `tail` of type `Tail`: the caller supplies the map p |-> t, and
    the type keeps the one fact about it the rest of the code needs, that a
    square root is never negative. Everything else is modelled exactly. */
module InverseCdf {
  import opened Results
  import opened RealFacts

  type NonNegReal = r: real | r >= 0.0

  /** The map p |-> sqrt(-2 ln p), supplied by the caller. */
  type Tail = real -> NonNegReal

  // The coefficients of formula 26.2.23 are written in place, c0 = 2.515517,
  // c1 = 0.802853, c2 = 0.010328 in the numerator and d0 = 1.432788,
  // d1 = 0.189269, d2 = 0.001308 in the denominator, so that the solver
  // sees them as numbers rather than as named constants.

  /** The denominator of the rational step; it never vanishes for t >= 0. */
  function Denominator(t: real): (d: real)
    requires t >= 0.0
    ensures d >= 1.0
  {
    var a := 0.001308 * t + 0.189269;
    assert a * t >= 0.0;
    var b := a * t + 1.432788;
    assert b * t >= 0.0;
    b * t + 1.0
  }

  /** The numerator of the rational step; it is at least c0 for t >= 0. */
  function Numerator(t: real): (n: real)
    requires t >= 0.0
    ensures n >= 2.515517
  {
    var a := 0.010328 * t + 0.802853;
    assert a * t >= 0.0;
    a * t + 2.515517
  }

  /** The rational step t - N(t)/D(t). Over t >= 0 the correction N/D is
      positive, so the step always lands strictly below t. */
  function RationalApproximation(t: real): (r: real)
    requires t >= 0.0
    ensures r < t
  {
    var n := Numerator(t);
    var d := Denominator(t);
    assert n / d > 0.0;
    t - n / d
  }

  /** The inverse normal CDF: a domain error outside the open interval (0,1),
      the lower tail by symmetry below 1/2, the upper tail from 1/2 on. */
  function NormalCdfInverse(tail: Tail, p: real): (r: Result<real>)
    ensures r.Err? <==> p <= 0.0 || p >= 1.0
    ensures r.Err? ==> r.error == DomainError(p)
  {
    if p <= 0.0 || p >= 1.0 then Err(DomainError(p))
    else if p < 0.5 then Ok(-RationalApproximation(tail(p)))
    else Ok(RationalApproximation(tail(1.0 - p)))
  }

  /** Negates a successful value and passes an error through unchanged. */
  function Negated(r: Result<real>): Result<real>
  {
    match r
    case Ok(z) => Ok(-z)
    case Err(e) => Err(e)
  }

  /** Away from the branch point 1/2, the approximation is antisymmetric
      about 1/2: the quantile of 1 - p is minus the quantile of p. */
  lemma NormalCdfInverseAntisymmetric(tail: Tail, p: real)
    requires 0.0 < p < 1.0 && p != 0.5
    ensures NormalCdfInverse(tail, 1.0 - p) == Negated(NormalCdfInverse(tail, p))
  {
    assert 1.0 - (1.0 - p) == p;
  }

  /** The wrapper the table builder calls: exactly 0 at 0, odd extension for
      negative arguments, and every quantile shrunk by the factor 0.7. */
  function VdErfInvSingle01(tail: Tail, x: real): (r: Result<real>)
    ensures x == 0.0 ==> r == Ok(0.0)
    ensures r.Ok? <==> -1.0 < x < 1.0
  {
    if x == 0.0 then Ok(0.0)
    else if x < 0.0 then
      match NormalCdfInverse(tail, -x)
      case Ok(z) => Ok(-z * 0.7)
      case Err(e) => Err(e)
    else
      match NormalCdfInverse(tail, x)
      case Ok(z) => Ok(z * 0.7)
      case Err(e) => Err(e)
  }

  /** The wrapper is an odd function, errors included. */
  lemma VdErfInvSingle01IsOdd(tail: Tail, x: real)
    ensures VdErfInvSingle01(tail, -x) == Negated(VdErfInvSingle01(tail, x))
  {
    assert -(-x) == x;
  }

  /** The scaled quantile of a probability, where the wrapper cannot fail:
      0.7 times the inverse normal CDF. */
  function ScaledQuantile(tail: Tail, p: real): (q: real)
    requires 0.0 < p < 1.0
    ensures VdErfInvSingle01(tail, p) == Ok(q)
    ensures NormalCdfInverse(tail, p).Ok? && q == NormalCdfInverse(tail, p).value * 0.7
  {
    VdErfInvSingle01(tail, p).value
  }

  /** ASSUMPTION, not proved: on the rank range [0.001, 0.999) the scaled
      quantile lies in [-3, 3]. The approximation reaches about -2.16 at
      0.001; the table builder asserts this bound on every entry. */
  ghost predicate WithinThreeOnRankRange(tail: Tail)
  {
    forall p :: 0.001 <= p < 0.999 ==> -3.0 <= ScaledQuantile(tail, p) <= 3.0
  }

  /** ASSUMPTION, not proved: t = sqrt(-2 ln p) does not increase as p grows
      over (0, 1). This holds for the real square root and logarithm; it is
      stated about the parameter because the model has neither. */
  ghost predicate TailNonIncreasing(tail: Tail)
  {
    forall p, q :: 0.0 < p <= q < 1.0 ==> tail(q) <= tail(p)
  }

  /** Horner's form of the numerator is its expanded polynomial. */
  lemma NumeratorExpanded(t: real)
    requires t >= 0.0
    ensures Numerator(t) == 2.515517 + 0.802853 * t + 0.010328 * (t * t)
  {
  }

  /** Horner's form of the denominator is its expanded polynomial. */
  lemma DenominatorExpanded(t: real)
    requires t >= 0.0
    ensures Denominator(t) == 1.0 + 1.432788 * t + 0.189269 * (t * t) + 0.001308 * (t * t * t)
  {
  }

  /** The cross product N(b) D(a) as a polynomial in a and b. */
  lemma ProductExpanded(a: real, b: real)
    requires a >= 0.0 && b >= 0.0
    ensures Numerator(b) * Denominator(a)
         == (2.515517 + 0.802853 * b + 0.010328 * (b * b))
          * (1.0 + 1.432788 * a + 0.189269 * (a * a) + 0.001308 * (a * a * a))
  {
    NumeratorExpanded(b);
    DenominatorExpanded(a);
  }

  /** The polynomial left over when the cross difference
      N(b) D(a) - N(a) D(b) is divided by a - b. All its coefficients are
      positive. */
  function CrossFactor(a: real, b: real): real
  {
    2.801349571396 + 0.465781387073 * (a + b) + 0.140447646229 * (a * b)
      + 0.003290296236 * (a * a + b * b) + 0.001050131724 * (a * b) * (a + b)
      + 0.000013509024 * (a * b) * (a * b)
  }

  /** The cross difference of numerator and denominator, factored. */
  lemma CrossDifference(a: real, b: real)
    ensures (2.515517 + 0.802853 * b + 0.010328 * (b * b))
          * (1.0 + 1.432788 * a + 0.189269 * (a * a) + 0.001308 * (a * a * a))
          - (2.515517 + 0.802853 * a + 0.010328 * (a * a))
          * (1.0 + 1.432788 * b + 0.189269 * (b * b) + 0.001308 * (b * b * b))
         == -(b - a) * CrossFactor(a, b)
  {
  }

  /** With positive coefficients, the factor is positive on t >= 0. */
  lemma CrossFactorPositive(a: real, b: real)
    requires a >= 0.0 && b >= 0.0
    ensures CrossFactor(a, b) > 0.0
  {
    var ab := a * b;
    assert ab >= 0.0;
    assert a * a >= 0.0 && b * b >= 0.0;
    assert ab * (a + b) >= 0.0;
    assert ab * ab >= 0.0;
  }

  /** The cross difference N(b) D(a) - N(a) D(b) is -(b - a) times the
      positive factor. */
  lemma CrossProductsDifference(a: real, b: real)
    requires a >= 0.0 && b >= 0.0
    ensures Numerator(b) * Denominator(a) - Numerator(a) * Denominator(b) == -(b - a) * CrossFactor(a, b)
  {
    ProductExpanded(a, b);
    ProductExpanded(b, a);
    CrossDifference(a, b);
  }

  /** For 0 <= a <= b, cross-multiplied: N(b) D(a) <= N(a) D(b). */
  lemma CrossProductsOrdered(a: real, b: real)
    requires 0.0 <= a <= b
    ensures Numerator(b) * Denominator(a) <= Numerator(a) * Denominator(b)
  {
    CrossProductsDifference(a, b);
    CrossFactorPositive(a, b);
    MulNonNeg(b - a, CrossFactor(a, b));
  }

  /** Between positive denominators, the order of the cross products is the
      order of the quotients. */
  lemma QuotientsOrdered(x: real, y: real, u: real, w: real)
    requires y > 0.0 && w > 0.0 && x * w <= u * y
    ensures x / y <= u / w
  {
    assert x / y == (x * w) / (y * w);
    assert u / w == (u * y) / (y * w);
  }

  /** The correction N/D of the rational step does not increase on t >= 0. */
  lemma CorrectionOrdered(a: real, b: real)
    requires 0.0 <= a <= b
    ensures Numerator(b) / Denominator(b) <= Numerator(a) / Denominator(a)
  {
    CrossProductsOrdered(a, b);
    QuotientsOrdered(Numerator(b), Denominator(b), Numerator(a), Denominator(a));
  }

  /** The rational step is increasing on t >= 0, and at least as steep as t
      itself. */
  lemma RationalApproximationIncreasing(a: real, b: real)
    requires 0.0 <= a <= b
    ensures RationalApproximation(b) - RationalApproximation(a) >= b - a
  {
    CorrectionOrdered(a, b);
  }

  /** On each side of the branch point the scaled quantile does not
      decrease: below 1/2 it is -0.7 R(t(p)), from 1/2 on 0.7 R(t(1 - p)),
      and the rational step R is increasing. */
  lemma ScaledQuantileMonotoneOnEachHalf(tail: Tail, p: real, q: real)
    requires TailNonIncreasing(tail)
    requires 0.0 < p <= q < 1.0 && (q < 0.5 || 0.5 <= p)
    ensures ScaledQuantile(tail, p) <= ScaledQuantile(tail, q)
  {
    if q < 0.5 {
      assert tail(q) <= tail(p);
      RationalApproximationIncreasing(tail(q), tail(p));
    } else {
      assert tail(1.0 - p) <= tail(1.0 - q);
      RationalApproximationIncreasing(tail(1.0 - p), tail(1.0 - q));
    }
  }

  /** The approximation drops at the branch point. With t(1/2) = sqrt(2 ln 2)
      = 1.17741002251... the step R(t(1/2)) is about -1.01e-7, so the scaled
      quantile at 1/2 is negative; just below 1/2, at 0.49999999002 (where
      t = 1.17741003946...), it is positive. Any `tail` that agrees with the
      real sqrt(-2 ln p) to ten decimals at these two points shows it. */
  lemma QuantileDropsAtHalf(tail: Tail)
    requires 1.1774100225 <= tail(0.5) <= 1.1774100226
    requires 1.1774100394 <= tail(0.49999999002) <= 1.1774100395
    ensures ScaledQuantile(tail, 0.49999999002) > 0.0 > ScaledQuantile(tail, 0.5)
  {
    RationalApproximationIncreasing(tail(0.5), 1.1774100226);
    RationalApproximationIncreasing(tail(0.49999999002), 1.1774100395);
    assert RationalApproximation(1.1774100226) < 0.0;
    assert RationalApproximation(1.1774100395) < 0.0;
  }

  /** The scaled quantile with its two branches anchored at 0 for p = 1/2:
      the value of the upper branch at 1/2 is subtracted above 1/2 and added
      below, which removes the drop and keeps the oddness about 1/2. */
  function AnchoredScaledQuantile(tail: Tail, p: real): (q: real)
    requires 0.0 < p < 1.0
    ensures p == 0.5 ==> q == 0.0
  {
    var offset := RationalApproximation(tail(0.5)) * 0.7;
    if p < 0.5 then ScaledQuantile(tail, p) + offset else ScaledQuantile(tail, p) - offset
  }

  /** The anchored quantile is odd about 1/2. */
  lemma AnchoredScaledQuantileAntisymmetric(tail: Tail, p: real)
    requires 0.0 < p < 1.0
    ensures AnchoredScaledQuantile(tail, 1.0 - p) == -AnchoredScaledQuantile(tail, p)
  {
    if p != 0.5 {
      NormalCdfInverseAntisymmetric(tail, p);
    }
  }

  /** The anchored quantile does not decrease over all of (0, 1): it is at
      most 0 below 1/2 and at least 0 from 1/2 on. */
  lemma AnchoredScaledQuantileNonDecreasing(tail: Tail, p: real, q: real)
    requires TailNonIncreasing(tail)
    requires 0.0 < p <= q < 1.0
    ensures AnchoredScaledQuantile(tail, p) <= AnchoredScaledQuantile(tail, q)
  {
    if q < 0.5 || 0.5 <= p {
      ScaledQuantileMonotoneOnEachHalf(tail, p, q);
    } else {
      assert tail(0.5) <= tail(p);
      RationalApproximationIncreasing(tail(0.5), tail(p));
      assert tail(0.5) <= tail(1.0 - q);
      RationalApproximationIncreasing(tail(0.5), tail(1.0 - q));
    }
  }
}
