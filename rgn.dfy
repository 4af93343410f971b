/** The stateful wrapper of rgn/rgn.py: an object that remembers the data
    it was last given, the transformation map it last built and the output
    it last produced. Its private helpers (the inverse normal CDF, the
    wrapper, the bracketing search) are the same code as the free functions
    of Gaussian_Normalization.py and are shared with module
    `GaussianNormalization`; what this module adds is the state and the
    order in which the operations update it. An exception the original
    raises is an `Err` (or a `Fail`) here, and a failed operation leaves
    every field it had not yet assigned as it was. */
module Rgn {
  import opened Results
  import opened InverseCdf
  import opened Histogram
  import opened TrafoMaps
  import opened RankGauss
  import opened GaussianNormalization

  class RGN {
    /** The map p |-> sqrt(-2 ln p) the inverse normal CDF needs. */
    const tail: Tail
    /** The data last passed to the constructor or to `Fit`. */
    var data: Option<seq<real>>
    /** The transformation map last built; `None` before any fit. */
    var trafoMap: Option<TrafoMap>
    /** The values last produced by `Transform`. */
    var output: Option<seq<real>>
    /** The samples the current map was built from. */
    ghost var fittedOn: seq<real>

    /** The stored map, when there is one, is the map of the samples it was
        built from. */
    ghost predicate Valid()
      reads this
    {
      trafoMap.Some? ==> RankGaussTrafo(tail, fittedOn) == Ok(trafoMap.value)
    }

    /** An object created without data: nothing is fitted yet. */
    constructor (tail: Tail)
      ensures Valid()
      ensures this.tail == tail
      ensures data == None && trafoMap == None && output == None
    {
      this.tail := tail;
      data := None;
      trafoMap := None;
      output := None;
      fittedOn := [];
    }

    /** Creation with optional data: without data the object is empty;
        with data it is fitted and transforms that data at once, and the
        creation fails when either step fails. */
    static method Create(tail: Tail, dataIn: Option<seq<real>>) returns (r: Result<RGN>)
      ensures dataIn.None? ==>
        && r.Ok? && fresh(r.value) && r.value.Valid() && r.value.tail == tail
        && r.value.data == None && r.value.trafoMap == None && r.value.output == None
      ensures dataIn.Some? ==>
        (r.Ok? <==> RankGaussTrafo(tail, dataIn.value).Ok? && dataIn.value != [])
      ensures dataIn.Some? && RankGaussTrafo(tail, dataIn.value).Err? ==> r == Err(QuantileOutOfRange)
      ensures dataIn.Some? && dataIn.value == [] ==> r == Err(NoTransformationMap)
      ensures dataIn.Some? && r.Ok? ==>
        && fresh(r.value) && r.value.Valid() && r.value.tail == tail
        && r.value.data == dataIn
        && r.value.trafoMap == Some(RankGaussTrafo(tail, dataIn.value).value)
        && r.value.output.Some?
        && |r.value.output.value| == |dataIn.value|
        && (forall j :: 0 <= j < |dataIn.value| ==>
              r.value.output.value[j] == TrafoValue(r.value.trafoMap.value, dataIn.value[j]))
    {
      var obj := new RGN(tail);
      if dataIn.None? {
        return Ok(obj);
      }
      obj.data := dataIn;
      var out := obj.FitTransform(dataIn.value);
      if out.Err? {
        return Err(out.error);
      }
      return Ok(obj);
    }

    /** Builds the map from `dataIn`. The data is recorded first; the map
        (and the samples it stands for) is replaced only when the build
        succeeds, and a failed sanity assertion leaves the old map. */
    method Fit(dataIn: seq<real>) returns (o: Outcome)
      requires Valid()
      modifies this
      ensures Valid()
      ensures data == Some(dataIn) && output == old(output)
      ensures o.Pass? <==> RankGaussTrafo(tail, dataIn).Ok?
      ensures o.Pass? ==> trafoMap == Some(RankGaussTrafo(tail, dataIn).value) && fittedOn == dataIn
      ensures o.Fail? ==>
        && o.error == QuantileOutOfRange
        && trafoMap == old(trafoMap) && fittedOn == old(fittedOn)
    {
      data := Some(dataIn);
      var m := BuildRankGaussTrafo(tail, dataIn);
      if m.Err? {
        return Fail(m.error);
      }
      trafoMap := Some(m.value);
      fittedOn := dataIn;
      return Pass;
    }

    /** Applies the stored map to every input and records the result as the
        output. Before any fit there is no map to apply; an empty map is the
        interpolator's error. Neither failure touches the output. */
    method Transform(dataIn: seq<real>) returns (r: Result<seq<real>>)
      requires Valid()
      modifies this
      ensures Valid()
      ensures data == old(data) && trafoMap == old(trafoMap) && fittedOn == old(fittedOn)
      ensures trafoMap.None? ==> r == Err(NotFitted)
      ensures trafoMap.Some? ==> (r.Err? <==> |trafoMap.value.keys| == 0)
      ensures trafoMap.Some? && r.Err? ==> r.error == NoTransformationMap
      ensures r.Ok? ==>
        && trafoMap.Some? && |r.value| == |dataIn|
        && forall j :: 0 <= j < |dataIn| ==> r.value[j] == TrafoValue(trafoMap.value, dataIn[j])
      ensures output == if r.Ok? then Some(r.value) else old(output)
    {
      if trafoMap.None? {
        return Err(NotFitted);
      }
      r := ApplyRankTrafo(dataIn, trafoMap.value);
      if r.Ok? {
        output := Some(r.value);
      }
    }

    /** Fits on `dataIn` and then transforms that same data. A failed fit
        stops before the transform; the map of empty data has no keys, so
        the transform then fails. With three or more distinct values the
        output has mean zero. */
    method FitTransform(dataIn: seq<real>) returns (r: Result<seq<real>>)
      requires Valid()
      modifies this
      ensures Valid()
      ensures data == Some(dataIn)
      ensures RankGaussTrafo(tail, dataIn).Err? ==>
        r == Err(QuantileOutOfRange) && trafoMap == old(trafoMap) && output == old(output)
      ensures RankGaussTrafo(tail, dataIn).Ok? ==>
        trafoMap == Some(RankGaussTrafo(tail, dataIn).value) && fittedOn == dataIn
      ensures RankGaussTrafo(tail, dataIn).Ok? ==> (r.Ok? <==> dataIn != [])
      ensures dataIn == [] ==> r == Err(NoTransformationMap) && output == old(output)
      ensures r.Ok? ==>
        && trafoMap.Some? && |r.value| == |dataIn| && output == Some(r.value)
        && forall j :: 0 <= j < |dataIn| ==> r.value[j] == TrafoValue(trafoMap.value, dataIn[j])
      ensures r.Ok? && |SortedKeys(dataIn)| >= 3 ==> Sum(r.value) == 0.0
    {
      var o := Fit(dataIn);
      if o.Fail? {
        return Err(o.error);
      }
      NoKeysIffNoData(dataIn);
      r := Transform(dataIn);
      if r.Ok? && |SortedKeys(dataIn)| >= 3 {
        TransformedSamplesSumToZero(tail, dataIn, r.value);
      }
    }
  }

  /** The map has keys exactly when there is data to build it from. */
  lemma NoKeysIffNoData(s: seq<real>)
    ensures |SortedKeys(s)| == 0 <==> s == []
  {
    if s != [] {
      assert s[0] in s;
    }
  }
}
