/** What the table builder computes, stated in closed form, and what it
    guarantees. `RankGaussTrafo` is the reference definition that the
    imperative builder (`GaussianNormalization.BuildRankGaussTrafo`) is
    proved to implement: each distinct sample value is mapped to the scaled
    normal quantile of its rescaled rank, and the quantiles are then centred
    so that their count-weighted mean is zero. Zero, one and two distinct
    values are special cases that bypass the quantiles and the centring. */
module RankGauss {
  import opened Results
  import opened InverseCdf
  import opened Histogram
  import opened TrafoMaps
  import opened RealFacts

  /** The empirical rank of a sample value: the share of samples strictly
      below it. It lies in [0, 1): the value itself is never below itself. */
  function Rank(s: seq<real>, v: real): (r: real)
    requires v in s
    ensures 0.0 <= r < 1.0
  {
    CountBelowBound(s, v);
    assert CountBelow(s, v) < |s|;
    CountBelow(s, v) as real / |s| as real
  }

  /** Rescales a rank from [0, 1) into [0.001, 0.999), strictly inside the
      domain (0, 1) of the inverse normal CDF. */
  function Rescale(r: real): (p: real)
    requires 0.0 <= r < 1.0
    ensures 0.001 <= p < 0.999
  {
    r * 0.998 + 0.001
  }

  /** The uncentred quantile stored for a sample value. The wrapper is called
      on a rescaled rank, so it succeeds: the table builder never raises the
      inverse CDF's domain error. */
  function RankQuantile(tail: Tail, s: seq<real>, v: real): (q: real)
    requires v in s
    ensures VdErfInvSingle01(tail, Rescale(Rank(s, v))) == Ok(q)
  {
    ScaledQuantile(tail, Rescale(Rank(s, v)))
  }

  /** The uncentred quantiles of the keys ks, in key order: one per key,
      each the wrapper's successful result on that key's rescaled rank. */
  function RawQuantiles(tail: Tail, s: seq<real>, ks: seq<real>): (qs: seq<real>)
    requires forall i :: 0 <= i < |ks| ==> ks[i] in s
    ensures |qs| == |ks|
    ensures forall i {:trigger qs[i]} :: 0 <= i < |ks| ==> VdErfInvSingle01(tail, Rescale(Rank(s, ks[i]))) == Ok(qs[i])
  {
    seq(|ks|, i requires 0 <= i < |ks| => RankQuantile(tail, s, ks[i]))
  }

  /** The sanity bound the builder asserts on every quantile. */
  predicate WithinThree(qs: seq<real>)
  {
    forall i :: 0 <= i < |qs| ==> -3.0 <= qs[i] <= 3.0
  }

  /** The sum over the keys ks of multiplicity times the value in ys. */
  function WeightedSum(s: seq<real>, ks: seq<real>, ys: seq<real>): real
    requires |ks| == |ys|
  {
    if ks == [] then 0.0
    else WeightedSum(s, ks[..|ks| - 1], ys[..|ys| - 1]) + Weighted(Count(s, ks[|ks| - 1]), ys[|ys| - 1])
  }

  /** The contribution of a value y that occurs n times: n copies of y
      added up, which is the product n * y (`WeightedIsProduct`). Stated as
      repeated addition, it keeps the sums below linear. */
  function Weighted(n: nat, y: real): real
  {
    if n == 0 then 0.0 else Weighted(n - 1, y) + y
  }

  /** n copies of y add up to n * y. */
  lemma {:induction false} WeightedIsProduct(n: nat, y: real)
    ensures Weighted(n, y) == n as real * y
  {
    if n > 0 {
      WeightedIsProduct(n - 1, y);
      assert (n - 1) as real * y + y == n as real * y;
    }
  }

  /** Repeated addition distributes over a difference. */
  lemma {:induction false} WeightedDiff(n: nat, y: real, c: real)
    ensures Weighted(n, y - c) == Weighted(n, y) - Weighted(n, c)
  {
    if n > 0 {
      WeightedDiff(n - 1, y, c);
    }
  }

  /** a copies and b copies of c make a + b copies. */
  lemma {:induction false} WeightedAdd(a: nat, b: nat, c: real)
    ensures Weighted(a + b, c) == Weighted(a, c) + Weighted(b, c)
  {
    if b > 0 {
      WeightedAdd(a, b - 1, c);
    }
  }

  /** Appending one key and its value adds that key's weighted value. */
  lemma WeightedSumSnoc(s: seq<real>, ks: seq<real>, ys: seq<real>, k: real, y: real)
    requires |ks| == |ys|
    ensures WeightedSum(s, ks + [k], ys + [y]) == WeightedSum(s, ks, ys) + Weighted(Count(s, k), y)
  {
    var ks', ys' := ks + [k], ys + [y];
    assert ks'[..|ks'| - 1] == ks && ys'[..|ys'| - 1] == ys;
    assert ks'[|ks'| - 1] == k && ys'[|ys'| - 1] == y;
  }

  /** Every value lowered by the same constant c. There are as many values
      as before. */
  function Shifted(ys: seq<real>, c: real): (r: seq<real>)
    ensures |r| == |ys|
  {
    seq(|ys|, i requires 0 <= i < |ys| => ys[i] - c)
  }

  /** A common shift keeps every difference between two values, so the
      shifted values are in the same order as the original ones. */
  lemma ShiftedKeepsOrder(ys: seq<real>, c: real)
    ensures forall i, j :: 0 <= i < |ys| && 0 <= j < |ys| ==> Shifted(ys, c)[j] - Shifted(ys, c)[i] == ys[j] - ys[i]
    ensures NonDecreasing(Shifted(ys, c)) <==> NonDecreasing(ys)
  {
  }

  /** The transformation map built from the sample s, or the failed sanity
      assertion. Its keys are the distinct sample values in ascending order. */
  function RankGaussTrafo(tail: Tail, s: seq<real>): (r: Result<TrafoMap>)
    ensures r.Ok? ==> IsTrafoMap(r.value) && r.value.keys == SortedKeys(s)
    ensures r.Err? ==> r.error == QuantileOutOfRange && |SortedKeys(s)| >= 3
  {
    SortedKeysIncreasing(s);
    var ks := SortedKeys(s);
    if |ks| == 0 then Ok(TrafoMap([], []))
    else if |ks| == 1 then Ok(TrafoMap(ks, [0.0]))
    else if |ks| == 2 then Ok(TrafoMap(ks, [0.0, 1.0]))
    else
      assert ks[0] in s;
      var qs := RawQuantiles(tail, s, ks);
      if WithinThree(qs) then Ok(TrafoMap(ks, Shifted(qs, WeightedSum(s, ks, qs) / |s| as real)))
      else Err(QuantileOutOfRange)
  }

  /** No data: the map is empty. */
  lemma FitNoData(tail: Tail)
    ensures RankGaussTrafo(tail, []) == Ok(TrafoMap([], []))
  {
  }

  /** One distinct value v: the map is {v: 0.0}, not centred. */
  lemma FitOneValue(tail: Tail, s: seq<real>, v: real)
    requires v in s
    requires forall k :: 0 <= k < |s| ==> s[k] == v
    ensures RankGaussTrafo(tail, s) == Ok(TrafoMap([v], [0.0]))
  {
    forall y
      ensures y in SortedKeys(s) <==> y in [v]
    {
      assert y in s ==> y == v;
    }
    SortedKeysIncreasing(s);
    StrictlyIncreasingUnique(SortedKeys(s), [v]);
  }

  /** Two distinct values a < b: the map is {a: 0.0, b: 1.0}, not centred. */
  lemma FitTwoValues(tail: Tail, s: seq<real>, a: real, b: real)
    requires a < b && a in s && b in s
    requires forall k :: 0 <= k < |s| ==> s[k] == a || s[k] == b
    ensures RankGaussTrafo(tail, s) == Ok(TrafoMap([a, b], [0.0, 1.0]))
  {
    forall y
      ensures y in SortedKeys(s) <==> y in [a, b]
    {
      assert y in s ==> y == a || y == b;
    }
    SortedKeysIncreasing(s);
    StrictlyIncreasingUnique(SortedKeys(s), [a, b]);
  }

  /** Ranks strictly increase along the ascending keys: each key has every
      sample of the smaller keys below it, and at least one more. */
  lemma RanksStrictlyIncrease(s: seq<real>, i: nat, j: nat)
    requires i < j < |SortedKeys(s)|
    ensures SortedKeys(s)[i] in s && SortedKeys(s)[j] in s
    ensures CountBelow(s, SortedKeys(s)[i]) < CountBelow(s, SortedKeys(s)[j])
    ensures Rescale(Rank(s, SortedKeys(s)[i])) < Rescale(Rank(s, SortedKeys(s)[j]))
  {
    var ks := SortedKeys(s);
    assert ks[i] in ks && ks[j] in ks;
    SortedKeysIncreasing(s);
    CountBelowGrows(s, ks[i], ks[j]);
    assert Count(s, ks[i]) > 0;
    DivMonotone(CountBelow(s, ks[i]) as real, CountBelow(s, ks[j]) as real, |s| as real);
  }

  /** Dividing by a positive number keeps a strict order. */
  lemma DivMonotone(a: real, b: real, n: real)
    requires n > 0.0 && a < b
    ensures a / n < b / n
  {
    assert (b - a) / n > 0.0;
    assert b / n - a / n == (b - a) / n;
  }

  /** A rescaled rank lies below 1/2 exactly when fewer than half of the
      samples lie below the value. */
  lemma RescaledRankBelowHalf(s: seq<real>, v: real)
    requires v in s
    ensures Rescale(Rank(s, v)) < 0.5 <==> 2 * CountBelow(s, v) < |s|
  {
    assert Rank(s, v) * |s| as real == CountBelow(s, v) as real;
    HalfRank(Rank(s, v), CountBelow(s, v) as real, |s| as real);
  }

  /** The rescaling maps exactly the ranks r = c/n below 1/2 below 1/2. */
  lemma HalfRank(r: real, c: real, n: real)
    requires 0.0 <= r < 1.0 && n > 0.0 && r * n == c
    ensures Rescale(r) < 0.5 <==> 2.0 * c < n
  {
    if r < 0.5 {
      MulPositive(0.5 - r, n);
    } else {
      MulNonNeg(r - 0.5, n);
    }
  }

  /** Lowering every value by c lowers the weighted sum by c once per
      sample counted, that is by c times the total multiplicity. */
  lemma {:induction false} WeightedSumShift(s: seq<real>, ks: seq<real>, ys: seq<real>, c: real)
    requires |ks| == |ys|
    ensures WeightedSum(s, ks, Shifted(ys, c)) == WeightedSum(s, ks, ys) - Weighted(TotalCount(s, ks), c)
  {
    if ks != [] {
      var n := |ks|;
      var zs := Shifted(ys, c);
      assert zs[..n - 1] == Shifted(ys[..n - 1], c);
      WeightedSumShift(s, ks[..n - 1], ys[..n - 1], c);
      WeightedDiff(Count(s, ks[n - 1]), ys[n - 1], c);
      WeightedAdd(TotalCount(s, ks[..n - 1]), Count(s, ks[n - 1]), c);
    }
  }

  /** In the general case the builder subtracts one constant from every
      quantile, and after that the count-weighted sum of the stored values
      is exactly zero. */
  lemma FitIsCentred(tail: Tail, s: seq<real>)
    requires |SortedKeys(s)| >= 3 && RankGaussTrafo(tail, s).Ok?
    ensures var m := RankGaussTrafo(tail, s).value;
      && (forall i :: 0 <= i < |m.keys| ==> m.keys[i] in s)
      && (forall i :: 0 <= i < |m.keys| ==>
            m.values[i] - RankQuantile(tail, s, m.keys[i]) == m.values[0] - RankQuantile(tail, s, m.keys[0]))
      && WeightedSum(s, m.keys, m.values) == 0.0
  {
    var ks := SortedKeys(s);
    assert ks[0] in s;
    CountsSumToLength(s);
    CentredSumIsZero(s, ks, RawQuantiles(tail, s, ks));
  }

  /** The sum of a sequence of values. */
  function Sum(xs: seq<real>): real
  {
    if xs == [] then 0.0 else Sum(xs[..|xs| - 1]) + xs[|xs| - 1]
  }

  /** Without samples every multiplicity is zero. */
  lemma {:induction false} WeightedSumNoSamples(ks: seq<real>, ys: seq<real>)
    requires |ks| == |ys|
    ensures WeightedSum([], ks, ys) == 0.0
  {
    if ks != [] {
      WeightedSumNoSamples(ks[..|ks| - 1], ys[..|ys| - 1]);
    }
  }

  /** One more sample that is none of the keys changes no multiplicity. */
  lemma {:induction false} WeightedSumAddAbsent(p: seq<real>, x: real, ks: seq<real>, ys: seq<real>)
    requires |ks| == |ys| && x !in ks
    ensures WeightedSum(p + [x], ks, ys) == WeightedSum(p, ks, ys)
  {
    if ks != [] {
      var n := |ks|;
      assert ks[n - 1] in ks;
      assert x !in ks[..n - 1] by {
        assert forall k :: 0 <= k < n - 1 ==> ks[..n - 1][k] == ks[k];
      }
      WeightedSumAddAbsent(p, x, ks[..n - 1], ys[..n - 1]);
      assert (p + [x])[..|p|] == p;
    }
  }

  /** One more sample equal to the i-th of distinct keys adds that key's
      value once. */
  lemma {:induction false} WeightedSumAddPresent(p: seq<real>, x: real, ks: seq<real>, ys: seq<real>, i: nat)
    requires |ks| == |ys| && StrictlyIncreasing(ks) && i < |ks| && ks[i] == x
    ensures WeightedSum(p + [x], ks, ys) == WeightedSum(p, ks, ys) + ys[i]
  {
    var n := |ks|;
    assert (p + [x])[..|p|] == p;
    if i == n - 1 {
      assert x !in ks[..n - 1] by {
        assert forall k :: 0 <= k < n - 1 ==> ks[..n - 1][k] == ks[k] < x;
      }
      WeightedSumAddAbsent(p, x, ks[..n - 1], ys[..n - 1]);
    } else {
      assert ks[n - 1] != x;
      WeightedSumAddPresent(p, x, ks[..n - 1], ys[..n - 1], i);
    }
  }

  /** Summing the transformed samples visits every key once per occurrence:
      the sum is the count-weighted sum of the stored values. */
  lemma {:induction false} TransformedSum(m: TrafoMap, s: seq<real>, out: seq<real>)
    requires IsTrafoMap(m) && |m.keys| > 0
    requires forall k :: 0 <= k < |s| ==> s[k] in m.keys
    requires |out| == |s| && forall k :: 0 <= k < |s| ==> out[k] == TrafoValue(m, s[k])
    ensures Sum(out) == WeightedSum(s, m.keys, m.values)
  {
    if s != [] {
      var n := |s|;
      var p, x := s[..n - 1], s[n - 1];
      TransformedSum(m, p, out[..n - 1]);
      var i :| 0 <= i < |m.keys| && m.keys[i] == x;
      TrafoValueAtKey(m, i);
      WeightedSumAddPresent(p, x, m.keys, m.values, i);
      assert s == p + [x];
    } else {
      WeightedSumNoSamples(m.keys, m.values);
    }
  }

  /** In the general case the transformed samples themselves have mean
      zero: the centring of the stored values carries over to the output of
      `fit_transform`. */
  lemma TransformedSamplesSumToZero(tail: Tail, s: seq<real>, out: seq<real>)
    requires |SortedKeys(s)| >= 3 && RankGaussTrafo(tail, s).Ok?
    requires |out| == |s|
    requires forall k :: 0 <= k < |s| ==> out[k] == TrafoValue(RankGaussTrafo(tail, s).value, s[k])
    ensures Sum(out) == 0.0
  {
    var m := RankGaussTrafo(tail, s).value;
    FitIsCentred(tail, s);
    assert forall k :: 0 <= k < |s| ==> s[k] in s;
    TransformedSum(m, s, out);
  }

  /** When the multiplicities of the keys add up to the sample size, lowering
      every value by the count-weighted mean leaves a weighted sum of zero. */
  lemma CentredSumIsZero(s: seq<real>, ks: seq<real>, qs: seq<real>)
    requires |ks| == |qs| && s != [] && TotalCount(s, ks) == |s|
    ensures WeightedSum(s, ks, Shifted(qs, WeightedSum(s, ks, qs) / |s| as real)) == 0.0
  {
    var n := |s| as real;
    var w := WeightedSum(s, ks, qs);
    var c := w / n;
    WeightedSumShift(s, ks, qs, c);
    WeightedIsProduct(|s|, c);
    MeanRemoved(WeightedSum(s, ks, Shifted(qs, c)), w, c, Weighted(|s|, c), n);
  }

  /** Subtracting the mean c = w/n from values whose weighted sum is w, with
      total weight n, leaves a weighted sum of zero. */
  lemma MeanRemoved(a: real, w: real, c: real, total: real, n: real)
    requires n > 0.0 && c == w / n && total == n * c && a == w - total
    ensures a == 0.0
  {
  }

  /** ASSUMING the quantile bound, the builder's sanity assertion holds and
      the map is always built. */
  lemma FitSucceedsWhenBounded(tail: Tail, s: seq<real>)
    requires WithinThreeOnRankRange(tail)
    ensures RankGaussTrafo(tail, s).Ok?
  {
    var ks := SortedKeys(s);
    if |ks| >= 3 {
      assert ks[0] in s;
      var qs := RawQuantiles(tail, s, ks);
      forall i | 0 <= i < |qs|
        ensures -3.0 <= qs[i] <= 3.0
      {
        assert ks[i] in ks;
      }
    }
  }

  /** The rescaled rank c/n of a count c out of n samples. */
  function GridRank(c: nat, n: nat): (p: real)
    requires c < n
    ensures 0.001 <= p < 0.999
  {
    Rescale(c as real / n as real)
  }

  /** ASSUMPTION, not proved, and FALSE for large n: for two counts c1 < c2
      out of n samples, with fewer than half of the samples counted in c1
      and at least half in c2, the scaled quantile of the rescaled rank of
      c1 is at most that of c2. These are the pairs of keys on opposite
      sides of 1/2. With the real square root and logarithm, a numerical
      estimate puts the limit near n = 1.2e7: two such ranks lie at least
      0.998/n apart, the scaled quantile rises with slope about 1.75 on
      each side, and it drops by about 1.4e-7 at 1/2. `FitDropsAtHalf`
      shows that it fails for n = 10^8. */
  ghost predicate OrderedAcrossHalf(tail: Tail, n: nat)
  {
    forall c1: nat, c2: nat :: c1 < c2 < n && 2 * c1 < n <= 2 * c2 ==>
      ScaledQuantile(tail, GridRank(c1, n)) <= ScaledQuantile(tail, GridRank(c2, n))
  }

  /** ASSUMING t = sqrt(-2 ln p) does not increase in p, two keys whose
      ranks lie on the same side of 1/2 keep their order in the map: with
      fewer than half of the samples below both, or at least half below
      both. */
  lemma FitNonDecreasingOnEachHalf(tail: Tail, s: seq<real>, i: nat, j: nat)
    requires TailNonIncreasing(tail)
    requires RankGaussTrafo(tail, s).Ok?
    requires i < j < |SortedKeys(s)|
    requires 2 * CountBelow(s, SortedKeys(s)[j]) < |s| || |s| <= 2 * CountBelow(s, SortedKeys(s)[i])
    ensures var ys := RankGaussTrafo(tail, s).value.values;
      ys[i] <= ys[j]
  {
    var ks := SortedKeys(s);
    if |ks| >= 3 {
      RanksStrictlyIncrease(s, i, j);
      RescaledRankBelowHalf(s, ks[i]);
      RescaledRankBelowHalf(s, ks[j]);
      ScaledQuantileMonotoneOnEachHalf(tail, Rescale(Rank(s, ks[i])), Rescale(Rank(s, ks[j])));
    }
  }

  /** ASSUMING t = sqrt(-2 ln p) does not increase in p, and that the
      quantile keeps the order of rescaled ranks on opposite sides of 1/2
      (`OrderedAcrossHalf`), the stored values do not decrease along the
      keys: the map preserves rank order. The second assumption fails for
      large samples (`FitDropsAtHalf`). */
  lemma FitNonDecreasing(tail: Tail, s: seq<real>)
    requires TailNonIncreasing(tail) && OrderedAcrossHalf(tail, |s|)
    requires RankGaussTrafo(tail, s).Ok?
    ensures NonDecreasing(RankGaussTrafo(tail, s).value.values)
  {
    var ks := SortedKeys(s);
    var ys := RankGaussTrafo(tail, s).value.values;
    forall i, j | 0 <= i < j < |ys|
      ensures ys[i] <= ys[j]
    {
      if 2 * CountBelow(s, ks[j]) < |s| || |s| <= 2 * CountBelow(s, ks[i]) {
        FitNonDecreasingOnEachHalf(tail, s, i, j);
      } else {
        FitAcrossHalf(tail, s, i, j);
      }
    }
  }

  /** The pairs of keys `FitNonDecreasingOnEachHalf` leaves out: fewer than
      half of the samples below the first key and at least half below the
      second. Their order is the assumption `OrderedAcrossHalf`. */
  lemma FitAcrossHalf(tail: Tail, s: seq<real>, i: nat, j: nat)
    requires OrderedAcrossHalf(tail, |s|)
    requires RankGaussTrafo(tail, s).Ok?
    requires i < j < |SortedKeys(s)|
    requires 2 * CountBelow(s, SortedKeys(s)[i]) < |s| <= 2 * CountBelow(s, SortedKeys(s)[j])
    ensures var ys := RankGaussTrafo(tail, s).value.values;
      ys[i] <= ys[j]
  {
    var ks := SortedKeys(s);
    if |ks| >= 3 {
      RanksStrictlyIncrease(s, i, j);
      var c1, c2 := CountBelow(s, ks[i]), CountBelow(s, ks[j]);
      CountBelowBound(s, ks[j]);
      assert Rescale(Rank(s, ks[i])) == GridRank(c1, |s|);
      assert Rescale(Rank(s, ks[j])) == GridRank(c2, |s|);
      assert ScaledQuantile(tail, GridRank(c1, |s|)) <= ScaledQuantile(tail, GridRank(c2, |s|));
    }
  }

  /** The rank order is NOT kept for every sample. With N = 10^8 samples,
      a key with 49,999,999 samples below it has rescaled rank 0.49999999002
      and the next key, with 5 * 10^7 below it, has rank exactly 1/2. For a
      `tail` that agrees with sqrt(-2 ln p) to ten decimals at those two
      ranks, the first key is stored above the second. Such a sample is 0
      taken 49,999,999 times, 1 once and 2 taken 5 * 10^7 times. */
  lemma FitDropsAtHalf(tail: Tail, s: seq<real>, i: nat)
    requires 1.1774100225 <= tail(0.5) <= 1.1774100226
    requires 1.1774100394 <= tail(0.49999999002) <= 1.1774100395
    requires RankGaussTrafo(tail, s).Ok? && |SortedKeys(s)| >= 3 && i + 1 < |SortedKeys(s)|
    requires |s| == 100000000
    requires CountBelow(s, SortedKeys(s)[i]) == 49999999
    requires CountBelow(s, SortedKeys(s)[i + 1]) == 50000000
    ensures var ys := RankGaussTrafo(tail, s).value.values;
      ys[i] > ys[i + 1]
  {
    var ks := SortedKeys(s);
    RanksStrictlyIncrease(s, i, i + 1);
    assert Rescale(Rank(s, ks[i])) == 0.49999999002;
    assert Rescale(Rank(s, ks[i + 1])) == 0.5;
    QuantileDropsAtHalf(tail);
  }

  /** With the anchored quantile in place of the scaled one, the rank order
      of the keys is kept for every sample, assuming only that
      t = sqrt(-2 ln p) does not increase in p. */
  lemma AnchoredRanksOrdered(tail: Tail, s: seq<real>, i: nat, j: nat)
    requires TailNonIncreasing(tail)
    requires i < j < |SortedKeys(s)|
    ensures SortedKeys(s)[i] in s && SortedKeys(s)[j] in s
    ensures AnchoredScaledQuantile(tail, Rescale(Rank(s, SortedKeys(s)[i])))
         <= AnchoredScaledQuantile(tail, Rescale(Rank(s, SortedKeys(s)[j])))
  {
    RanksStrictlyIncrease(s, i, j);
    var ks := SortedKeys(s);
    AnchoredScaledQuantileNonDecreasing(tail, Rescale(Rank(s, ks[i])), Rescale(Rank(s, ks[j])));
  }

  /** Samples with the same multiplicities give the same weighted sum. */
  lemma {:induction false} WeightedSumOfPermutation(s: seq<real>, t: seq<real>, ks: seq<real>, ys: seq<real>)
    requires multiset(s) == multiset(t) && |ks| == |ys|
    ensures WeightedSum(s, ks, ys) == WeightedSum(t, ks, ys)
  {
    if ks != [] {
      WeightedSumOfPermutation(s, t, ks[..|ks| - 1], ys[..|ys| - 1]);
      CountIsMultiplicity(s, ks[|ks| - 1]);
      CountIsMultiplicity(t, ks[|ks| - 1]);
    }
  }

  /** Determinism: the map depends only on which values occur how often,
      not on the order of the samples. */
  lemma FitPermutationInvariant(tail: Tail, s: seq<real>, t: seq<real>)
    requires multiset(s) == multiset(t)
    ensures RankGaussTrafo(tail, s) == RankGaussTrafo(tail, t)
  {
    SortedKeysOfPermutation(s, t);
    var ks := SortedKeys(s);
    assert |s| == |multiset(s)| == |multiset(t)| == |t|;
    if |ks| >= 3 {
      assert ks[0] in s && ks[0] in t;
      forall i | 0 <= i < |ks|
        ensures ks[i] in s && ks[i] in t
        ensures Rank(s, ks[i]) == Rank(t, ks[i])
      {
        assert ks[i] in ks;
        CountBelowKey(s, i);
        CountBelowKey(t, i);
        TotalCountOfPermutation(s, t, ks[..i]);
      }
      var qs := RawQuantiles(tail, s, ks);
      assert qs == RawQuantiles(tail, t, ks);
      WeightedSumOfPermutation(s, t, ks, qs);
    }
  }

  /** End to end, under the two assumptions of `FitNonDecreasing`:
      transforming with a map built from the sample never reverses the order
      of two inputs. */
  lemma FittedTransformPreservesOrder(tail: Tail, s: seq<real>, v: real, w: real)
    requires TailNonIncreasing(tail) && OrderedAcrossHalf(tail, |s|)
    requires s != [] && RankGaussTrafo(tail, s).Ok?
    requires v <= w
    ensures |RankGaussTrafo(tail, s).value.keys| > 0
    ensures var m := RankGaussTrafo(tail, s).value;
      TrafoValue(m, v) <= TrafoValue(m, w)
  {
    assert s[0] in SortedKeys(s);
    FitNonDecreasing(tail, s);
    TrafoValueMonotone(RankGaussTrafo(tail, s).value, v, w);
  }
}
