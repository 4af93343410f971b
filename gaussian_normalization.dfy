/** The table builder, the binary search and the interpolator of
    Gaussian_Normalization.py, as the loops they are. Each method is proved
    against the closed-form definitions: `BuildRankGaussTrafo` computes
    `RankGauss.RankGaussTrafo`, `BinarySearch` finds `TrafoMaps.Bracket`,
    and `ApplyRankTrafo` applies `TrafoMaps.TrafoValue` to every input.
    The stateful wrapper in rgn/rgn.py runs the same code. */
module GaussianNormalization {
  import opened Results
  import opened InverseCdf
  import opened Histogram
  import opened TrafoMaps
  import opened RankGauss

  /** Builds the transformation map from the samples `dataIn`: the distinct
      values in ascending order, each mapped to the scaled quantile of its
      rescaled rank, and the quantiles centred on their weighted mean.
      Fails only where the sanity assertion on a quantile would fail. */
  method BuildRankGaussTrafo(tail: Tail, dataIn: seq<real>) returns (r: Result<TrafoMap>)
    ensures r == RankGaussTrafo(tail, dataIn)
  {
    var ks := SortedKeys(dataIn);
    if |ks| == 0 {
      return Ok(TrafoMap([], []));
    } else if |ks| == 1 {
      assert [ks[0]] == ks;
      return Ok(TrafoMap([ks[0]], [0.0]));
    } else if |ks| == 2 {
      assert [ks[0], ks[1]] == ks;
      return Ok(TrafoMap([ks[0], ks[1]], [0.0, 1.0]));
    }
    var n := SampleSize(dataIn, ks);
    CountsSumToLength(dataIn);
    assert n == |dataIn|;
    var raw, mean := RankQuantiles(tail, dataIn, ks, n);
    if raw.Err? {
      return raw;
    }
    mean := mean / n as real;
    var m := Centre(raw.value, mean);
    return Ok(m);
  }

  /** The sample size N, summed over the histogram: the total multiplicity
      of the keys. */
  method SampleSize(s: seq<real>, ks: seq<real>) returns (n: nat)
    ensures n == TotalCount(s, ks)
  {
    n := 0;
    var i := 0;
    while i < |ks|
      invariant 0 <= i <= |ks|
      invariant n == TotalCount(s, ks[..i])
    {
      assert ks[..i + 1][..i] == ks[..i];
      n := n + Count(s, ks[i]);
      i := i + 1;
    }
    assert ks[..i] == ks;
  }

  /** The main loop of the table builder: walks the sorted keys `ks` with
      the running count `cnt` of the samples already passed, stores the
      scaled quantile of each key's rescaled rank, and sums the
      count-weighted quantiles. It stops with the failed sanity assertion at
      the first quantile outside [-3, 3]. */
  method RankQuantiles(tail: Tail, s: seq<real>, ks: seq<real>, n: nat) returns (r: Result<TrafoMap>, mean: real)
    requires n == |s| && ks == SortedKeys(s)
    ensures var qs := RawQuantiles(tail, s, ks);
      && (r.Ok? <==> WithinThree(qs))
      && (r.Ok? ==> r.value == TrafoMap(ks, qs) && mean == WeightedSum(s, ks, qs))
      && (r.Err? ==> r.error == QuantileOutOfRange)
  {
    ghost var qs := RawQuantiles(tail, s, ks);
    var m := TrafoMap([], []);
    var cnt := 0;
    mean := 0.0;
    var i := 0;
    while i < |ks|
      invariant 0 <= i <= |ks|
      invariant cnt == TotalCount(s, ks[..i])
      invariant m.keys == ks[..i] && m.values == qs[..i]
      invariant mean == WeightedSum(s, m.keys, m.values)
      invariant WithinThree(m.values)
    {
      var it := ks[i];
      var v := KeyQuantile(tail, s, ks, i, cnt, n);
      if !(v >= -3.0 && v <= 3.0) {
        OutOfRangeAt(qs, i);
        return Err(QuantileOutOfRange), mean;
      }
      QuantileStep(tail, s, ks, i, cnt, m, mean, v);
      mean := mean + Weighted(Count(s, it), v);
      m := TrafoMap(m.keys + [it], m.values + [v]);
      cnt := cnt + Count(s, it);
      i := i + 1;
    }
    assert ks[..i] == ks && qs[..i] == qs;
    return Ok(m), mean;
  }

  /** One stored quantile outside [-3, 3] fails the sanity bound. */
  lemma OutOfRangeAt(qs: seq<real>, i: nat)
    requires i < |qs| && !(-3.0 <= qs[i] <= 3.0)
    ensures !WithinThree(qs)
  {
  }

  /** One step of the main loop keeps its invariant: appending the i-th key
      and its quantile extends the prefixes, the running count and the
      weighted sum by that key's share. */
  lemma QuantileStep(tail: Tail, s: seq<real>, ks: seq<real>, i: nat, cnt: nat, m: TrafoMap, mean: real, v: real)
    requires forall j :: 0 <= j < |ks| ==> ks[j] in s
    requires i < |ks| && v == RawQuantiles(tail, s, ks)[i]
    requires cnt == TotalCount(s, ks[..i])
    requires m.keys == ks[..i] && m.values == RawQuantiles(tail, s, ks)[..i]
    requires mean == WeightedSum(s, m.keys, m.values)
    ensures cnt + Count(s, ks[i]) == TotalCount(s, ks[..i + 1])
    ensures m.keys + [ks[i]] == ks[..i + 1]
    ensures m.values + [v] == RawQuantiles(tail, s, ks)[..i + 1]
    ensures mean + Weighted(Count(s, ks[i]), v) == WeightedSum(s, m.keys + [ks[i]], m.values + [v])
  {
    var qs := RawQuantiles(tail, s, ks);
    assert ks[..i + 1] == ks[..i] + [ks[i]];
    assert qs[..i + 1] == qs[..i] + [v];
    TotalCountSnoc(s, ks[..i], ks[i]);
    WeightedSumSnoc(s, m.keys, m.values, ks[i], v);
  }

  /** The quantile the main loop stores for the i-th key: the share of
      samples passed so far, rescaled into [0.001, 0.999), through the
      shrunk inverse normal CDF. The call cannot fail there. */
  method KeyQuantile(tail: Tail, s: seq<real>, ks: seq<real>, i: nat, cnt: nat, n: nat) returns (v: real)
    requires ks == SortedKeys(s) && i < |ks| && cnt == TotalCount(s, ks[..i]) && n == |s|
    ensures s != [] && ks[i] in s
    ensures v == RawQuantiles(tail, s, ks)[i]
  {
    SortedKeysIsKeyList(s);
    CountBelowKeyOf(s, ks, i);
    RankOfKey(tail, s, ks[i], cnt);
    var rankV := cnt as real / n as real;
    rankV := rankV * 0.998 + 0.001;
    var q := VdErfInvSingle01(tail, rankV);
    v := q.value;
  }

  /** With the number of samples below a key as the running count, the
      loop's rescaled rank is that key's, and the wrapper returns its
      quantile. */
  lemma RankOfKey(tail: Tail, s: seq<real>, v: real, cnt: nat)
    requires v in s && cnt == CountBelow(s, v)
    ensures VdErfInvSingle01(tail, (cnt as real / |s| as real) * 0.998 + 0.001) == Ok(RankQuantile(tail, s, v))
  {
  }

  /** The centring loop: every stored value is lowered by the mean, in place,
      and the keys stay as they are. */
  method Centre(m: TrafoMap, mean: real) returns (r: TrafoMap)
    ensures r.keys == m.keys
    ensures r.values == Shifted(m.values, mean)
  {
    r := m;
    var j := 0;
    while j < |r.values|
      invariant 0 <= j <= |r.values| == |m.values|
      invariant r.keys == m.keys
      invariant forall k :: 0 <= k < |r.values| ==> r.values[k] == if k < j then m.values[k] - mean else m.values[k]
    {
      r := TrafoMap(r.keys, r.values[j := r.values[j] - mean]);
      j := j + 1;
    }
  }

  /** The bracketing search of the interpolator: for two or more ascending
      keys it narrows [start, end] down to neighbours and returns the keys
      there, which are those at `Bracket(keys, val)` and the position after.
      With one key both are that key. */
  method BinarySearch(keys: seq<real>, val: real) returns (lower: real, upper: real)
    requires |keys| >= 1 && StrictlyIncreasing(keys)
    ensures |keys| == 1 ==> lower == upper == keys[0]
    ensures |keys| >= 2 ==>
      lower == keys[Bracket(keys, val)] && upper == keys[Bracket(keys, val) + 1]
    ensures keys[0] <= val < keys[|keys| - 1] ==> lower <= val < upper
  {
    var start, end := 0, |keys| - 1;
    while start + 1 < end
      invariant 0 <= start <= end <= |keys| - 1
      invariant |keys| >= 2 ==> start < end
      invariant start == 0 || keys[start] <= val
      invariant end == |keys| - 1 || val < keys[end]
      decreases end - start
    {
      var mid := (start + end) / 2;
      if val < keys[mid] {
        end := mid;
      } else {
        start := mid;
      }
    }
    if |keys| >= 2 {
      BracketUnique(keys, val, start);
    }
    return keys[start], keys[end];
  }

  /** Whether the interpolator must interpolate for v: v lies strictly
      inside the key range and is not a key. */
  predicate NeedsInterpolation(m: TrafoMap, v: real)
  {
    |m.keys| > 0 && m.keys[0] < v < m.keys[|m.keys| - 1] && v !in m.keys
  }

  /** Applies the map to every input: clamped at both ends, exact on a key,
      linear between the two bracketing keys otherwise. An empty map is an
      error. This is the interpolator as evidently intended (and as the
      stateful wrapper's `transform` has it). */
  method ApplyRankTrafo(dataIn: seq<real>, trafoMap: TrafoMap) returns (r: Result<seq<real>>)
    requires IsTrafoMap(trafoMap)
    ensures r.Err? <==> |trafoMap.keys| == 0
    ensures r.Err? ==> r.error == NoTransformationMap
    ensures r.Ok? ==> |r.value| == |dataIn|
    ensures r.Ok? ==> forall j :: 0 <= j < |dataIn| ==> r.value[j] == TrafoValue(trafoMap, dataIn[j])
  {
    var keys := trafoMap.keys;
    if |keys| == 0 {
      return Err(NoTransformationMap);
    }
    var dataOut: seq<real> := [];
    for i := 0 to |dataIn|
      invariant |dataOut| == i
      invariant forall j :: 0 <= j < i ==> dataOut[j] == TrafoValue(trafoMap, dataIn[j])
    {
      var trafoVal := TransformOne(trafoMap, dataIn[i]);
      dataOut := dataOut + [trafoVal];
    }
    return Ok(dataOut);
  }

  /** The body of the interpolator's loop for one input `val`: the four
      cases in the source's order, with the bracket from the binary search
      in the last one. */
  method TransformOne(trafoMap: TrafoMap, val: real) returns (trafoVal: real)
    requires IsTrafoMap(trafoMap) && |trafoMap.keys| > 0
    ensures trafoVal == TrafoValue(trafoMap, val)
  {
    var keys := trafoMap.keys;
    var last := |keys| - 1;
    trafoVal := 0.0;
    if val <= keys[0] {
      trafoVal := Get(trafoMap, keys[0]).value;
    } else if val >= keys[last] {
      trafoVal := Get(trafoMap, keys[last]).value;
    } else if val in keys {
      trafoVal := Get(trafoMap, val).value;
    } else {
      var lowerKey, upperKey := BinarySearch(keys, val);
      ghost var k := Bracket(keys, val);
      var x1, y1 := lowerKey, Get(trafoMap, lowerKey).value;
      var x2, y2 := upperKey, Get(trafoMap, upperKey).value;
      assert y1 == trafoMap.values[k] && y2 == trafoMap.values[k + 1];
      trafoVal := Interpolate(x1, y1, x2, y2, val);
    }
  }

  /** The interpolator of Gaussian_Normalization.py as written: its
      interpolation branch evaluates the unbound name `x` (it means the
      input `val`), so every call that reaches that branch fails with a
      name error. Inputs that never reach it are mapped as intended. */
  method ApplyRankTrafoAsWritten(dataIn: seq<real>, trafoMap: TrafoMap) returns (r: Result<seq<real>>)
    requires IsTrafoMap(trafoMap)
    ensures |trafoMap.keys| == 0 ==> r == Err(NoTransformationMap)
    ensures |trafoMap.keys| > 0 ==>
      (r.Ok? <==> forall j :: 0 <= j < |dataIn| ==> !NeedsInterpolation(trafoMap, dataIn[j]))
    ensures |trafoMap.keys| > 0 && r.Err? ==> r.error == UndefinedName("x")
    ensures r.Ok? ==> |r.value| == |dataIn|
    ensures r.Ok? ==> forall j :: 0 <= j < |dataIn| ==> r.value[j] == TrafoValue(trafoMap, dataIn[j])
  {
    var keys := trafoMap.keys;
    if |keys| == 0 {
      return Err(NoTransformationMap);
    }
    var last := |keys| - 1;
    var dataOut: seq<real> := [];
    for i := 0 to |dataIn|
      invariant |dataOut| == i
      invariant forall j :: 0 <= j < i ==> !NeedsInterpolation(trafoMap, dataIn[j])
      invariant forall j :: 0 <= j < i ==> dataOut[j] == TrafoValue(trafoMap, dataIn[j])
    {
      var val := dataIn[i];
      var trafoVal := 0.0;
      if val <= keys[0] {
        trafoVal := Get(trafoMap, keys[0]).value;
      } else if val >= keys[last] {
        trafoVal := Get(trafoMap, keys[last]).value;
      } else if val in keys {
        trafoVal := Get(trafoMap, val).value;
      } else {
        return Err(UndefinedName("x"));
      }
      dataOut := dataOut + [trafoVal];
    }
    return Ok(dataOut);
  }

  /** The input that shows the name error: with the two-key map
      {0: 0.0, 10: 1.0}, the input 5 needs interpolation, so the interpolator
      as written fails on [5], while the intended one maps it to 0.5. */
  lemma UndefinedNameCounterexample()
    ensures IsTrafoMap(TrafoMap([0.0, 10.0], [0.0, 1.0]))
    ensures NeedsInterpolation(TrafoMap([0.0, 10.0], [0.0, 1.0]), 5.0)
    ensures TrafoValue(TrafoMap([0.0, 10.0], [0.0, 1.0]), 5.0) == 0.5
  {
    MidpointExample();
  }
}
