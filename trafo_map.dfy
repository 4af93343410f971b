/** The transformation map and what applying it to one value means.

    The source keeps the map in an `OrderedDict` whose keys the table builder
    inserts in ascending order. Here it is the sequence of keys in insertion
    order together with the value stored under each key at the same position.
    `TrafoValue` is the value `transform` computes for one input: clamping
    at both ends, the stored value on an exact key hit, and otherwise linear
    interpolation between the two keys that bracket the input. */
module TrafoMaps {
  import opened Results
  import opened Histogram
  import opened RealFacts

  datatype TrafoMap = TrafoMap(keys: seq<real>, values: seq<real>)

  /** One value per key, and keys strictly ascending (hence distinct). */
  predicate IsTrafoMap(m: TrafoMap)
  {
    |m.keys| == |m.values| && StrictlyIncreasing(m.keys)
  }

  /** The values never decrease along the keys. */
  predicate NonDecreasing(ys: seq<real>)
  {
    forall i, j :: 0 <= i < j < |ys| ==> ys[i] <= ys[j]
  }

  /** The position of k among the keys, if it is one. */
  function IndexOf(ks: seq<real>, k: real): (r: Option<nat>)
    ensures r.Some? ==> r.value < |ks| && ks[r.value] == k
    ensures r.None? <==> k !in ks
  {
    if ks == [] then None
    else if ks[0] == k then Some(0)
    else
      match IndexOf(ks[1..], k)
      case Some(i) => Some(i + 1)
      case None => None
  }

  /** Among distinct keys, a key is found at its own position. */
  lemma IndexOfKey(ks: seq<real>, i: nat)
    requires StrictlyIncreasing(ks) && i < |ks|
    ensures IndexOf(ks, ks[i]) == Some(i)
  {
    assert ks[i] in ks;
  }

  /** Dictionary lookup, `trafoMap[k]` when `k in trafoMap`. */
  function Get(m: TrafoMap, k: real): (r: Option<real>)
    requires IsTrafoMap(m)
    ensures r.None? <==> k !in m.keys
    ensures forall i :: 0 <= i < |m.keys| && m.keys[i] == k ==> r == Some(m.values[i])
  {
    match IndexOf(m.keys, k)
    case Some(i) => Some(m.values[i])
    case None => None
  }

  /** The reference definition of the bracket the binary search finds: the
      largest position i below the last one with ks[i] <= v, or 0 if there is
      none. Its contract pins it down as the only index that can be
      returned for ascending keys (see `BracketUnique`). */
  function Bracket(ks: seq<real>, v: real): (i: nat)
    requires |ks| >= 2
    ensures i < |ks| - 1
    ensures i == 0 || ks[i] <= v
    ensures i == |ks| - 2 || v < ks[i + 1]
    decreases |ks|
  {
    if |ks| == 2 || ks[|ks| - 2] <= v then |ks| - 2
    else Bracket(ks[..|ks| - 1], v)
  }

  /** For ascending keys, the contract of `Bracket` has one solution only. */
  lemma BracketUnique(ks: seq<real>, v: real, j: nat)
    requires StrictlyIncreasing(ks) && |ks| >= 2 && j < |ks| - 1
    requires j == 0 || ks[j] <= v
    requires j == |ks| - 2 || v < ks[j + 1]
    ensures Bracket(ks, v) == j
  {
  }

  /** Inside the key range, the bracket holds the value: ks[i] <= v < ks[i+1]. */
  lemma BracketHolds(ks: seq<real>, v: real)
    requires |ks| >= 2 && ks[0] <= v < ks[|ks| - 1]
    ensures ks[Bracket(ks, v)] <= v < ks[Bracket(ks, v) + 1]
  {
  }

  /** The line through (x1, y1) and (x2, y2), evaluated at v. It passes
      through both of its points. */
  function Interpolate(x1: real, y1: real, x2: real, y2: real, v: real): (r: real)
    requires x1 < x2
    ensures v == x1 ==> r == y1
    ensures v == x2 ==> r == y2
  {
    assert (x2 - x1) * (y2 - y1) / (x2 - x1) == y2 - y1;
    y1 + (v - x1) * (y2 - y1) / (x2 - x1)
  }

  /** Between its points, the line stays between their heights. */
  lemma InterpolateBetween(x1: real, y1: real, x2: real, y2: real, v: real)
    requires x1 < x2 && x1 <= v <= x2
    ensures y1 <= y2 ==> y1 <= Interpolate(x1, y1, x2, y2, v) <= y2
    ensures y2 <= y1 ==> y2 <= Interpolate(x1, y1, x2, y2, v) <= y1
  {
    var d := x2 - x1;
    var t := (v - x1) / d;
    assert 0.0 <= t <= 1.0;
    assert (v - x1) * (y2 - y1) / d == t * (y2 - y1);
    if y1 <= y2 {
      MulNonNeg(t, y2 - y1);
      MulNonNeg(1.0 - t, y2 - y1);
    } else {
      MulNonNeg(t, y1 - y2);
      MulNonNeg(1.0 - t, y1 - y2);
    }
  }

  /** A rising line rises: for y1 <= y2 the line does not decrease in v. */
  lemma InterpolateMonotone(x1: real, y1: real, x2: real, y2: real, v: real, w: real)
    requires x1 < x2 && v <= w && y1 <= y2
    ensures Interpolate(x1, y1, x2, y2, v) <= Interpolate(x1, y1, x2, y2, w)
  {
    var d := x2 - x1;
    assert (v - x1) * (y2 - y1) <= (w - x1) * (y2 - y1);
    assert (v - x1) * (y2 - y1) / d <= (w - x1) * (y2 - y1) / d;
  }

  /** The value `transform` computes for one input v. */
  function TrafoValue(m: TrafoMap, v: real): real
    requires IsTrafoMap(m) && |m.keys| > 0
  {
    var ks, ys := m.keys, m.values;
    var last := |ks| - 1;
    if v <= ks[0] then ys[0]
    else if v >= ks[last] then ys[last]
    else
      match IndexOf(ks, v)
      case Some(i) => ys[i]
      case None =>
        var i := Bracket(ks, v);
        Interpolate(ks[i], ys[i], ks[i + 1], ys[i + 1], v)
  }

  /** Applying the map is the piecewise-linear function through its points:
      on every segment [ks[i], ks[i+1]], endpoints included, it is the line
      through the two stored points. Clamping, exact hits and the binary
      search all agree with that line. */
  lemma TrafoValueOnSegment(m: TrafoMap, i: nat, v: real)
    requires IsTrafoMap(m) && i + 1 < |m.keys|
    requires m.keys[i] <= v <= m.keys[i + 1]
    ensures TrafoValue(m, v) == Interpolate(m.keys[i], m.values[i], m.keys[i + 1], m.values[i + 1], v)
  {
    var ks, ys := m.keys, m.values;
    var last := |ks| - 1;
    assert 0 < i ==> ks[0] < ks[i];
    assert i + 1 < last ==> ks[i + 1] < ks[last];
    if v <= ks[0] {
      assert v == ks[i];
    } else if v >= ks[last] {
      assert v == ks[i + 1];
    } else if IndexOf(ks, v).Some? {
      var j := IndexOf(ks, v).value;
      assert j == i || j == i + 1;
    } else {
      assert ks[i] in ks && ks[i + 1] in ks;
      BracketUnique(ks, v, i);
    }
  }

  /** Exact-hit short-circuit: a key maps to the value stored under it. */
  lemma TrafoValueAtKey(m: TrafoMap, i: nat)
    requires IsTrafoMap(m) && i < |m.keys|
    ensures TrafoValue(m, m.keys[i]) == m.values[i]
  {
    var ks := m.keys;
    assert 0 < i ==> ks[0] < ks[i];
    assert i < |ks| - 1 ==> ks[i] < ks[|ks| - 1];
    IndexOfKey(ks, i);
  }

  /** Clamping: below the least key every input gives what the least key
      gives, and above the greatest key what the greatest key gives. */
  lemma TrafoValueClamps(m: TrafoMap, v: real)
    requires IsTrafoMap(m) && |m.keys| > 0
    ensures v <= m.keys[0] ==> TrafoValue(m, v) == TrafoValue(m, m.keys[0]) == m.values[0]
    ensures v >= m.keys[|m.keys| - 1] ==>
      TrafoValue(m, v) == TrafoValue(m, m.keys[|m.keys| - 1]) == m.values[|m.keys| - 1]
  {
    TrafoValueAtKey(m, 0);
    TrafoValueAtKey(m, |m.keys| - 1);
  }

  /** An input strictly inside the key range that is not a key is mapped
      between the values of the two keys that bracket it. */
  lemma TrafoValueInterior(m: TrafoMap, v: real)
    requires IsTrafoMap(m) && |m.keys| >= 2
    requires m.keys[0] < v < m.keys[|m.keys| - 1] && v !in m.keys
    ensures var i := Bracket(m.keys, v);
      && m.keys[i] < v < m.keys[i + 1]
      && (m.values[i] <= m.values[i + 1] ==> m.values[i] <= TrafoValue(m, v) <= m.values[i + 1])
      && (m.values[i + 1] <= m.values[i] ==> m.values[i + 1] <= TrafoValue(m, v) <= m.values[i])
  {
    var i := Bracket(m.keys, v);
    BracketHolds(m.keys, v);
    assert m.keys[i] in m.keys;
    TrafoValueOnSegment(m, i, v);
    InterpolateBetween(m.keys[i], m.values[i], m.keys[i + 1], m.values[i + 1], v);
  }

  /** With non-decreasing values, every output lies between the first and
      the last stored value. */
  lemma TrafoValueBounds(m: TrafoMap, v: real)
    requires IsTrafoMap(m) && |m.keys| > 0 && NonDecreasing(m.values)
    ensures m.values[0] <= TrafoValue(m, v) <= m.values[|m.keys| - 1]
  {
    var ks, ys := m.keys, m.values;
    var last := |ks| - 1;
    if ks[0] < v < ks[last] {
      var i := Bracket(ks, v);
      BracketHolds(ks, v);
      TrafoValueOnSegment(m, i, v);
      InterpolateBetween(ks[i], ys[i], ks[i + 1], ys[i + 1], v);
      assert ys[0] <= ys[i] && ys[i + 1] <= ys[last];
    }
  }

  /** Rank preservation: with non-decreasing values, applying the map never
      reverses the order of two inputs. */
  lemma TrafoValueMonotone(m: TrafoMap, v: real, w: real)
    requires IsTrafoMap(m) && |m.keys| > 0 && NonDecreasing(m.values)
    requires v <= w
    ensures TrafoValue(m, v) <= TrafoValue(m, w)
  {
    var ks := m.keys;
    TrafoValueBounds(m, v);
    TrafoValueBounds(m, w);
    TrafoValueClamps(m, v);
    TrafoValueClamps(m, w);
    if ks[0] < v && w < ks[|ks| - 1] {
      TrafoValueMonotoneInside(m, v, w);
    }
  }

  /** Rank preservation strictly inside the key range, where both inputs
      are interpolated on their own segments. */
  lemma TrafoValueMonotoneInside(m: TrafoMap, v: real, w: real)
    requires IsTrafoMap(m) && |m.keys| >= 2 && NonDecreasing(m.values)
    requires m.keys[0] < v <= w < m.keys[|m.keys| - 1]
    ensures TrafoValue(m, v) <= TrafoValue(m, w)
  {
    var ks, ys := m.keys, m.values;
    var i := Bracket(ks, v);
    var j := Bracket(ks, w);
    BracketHolds(ks, v);
    BracketHolds(ks, w);
    TrafoValueOnSegment(m, i, v);
    TrafoValueOnSegment(m, j, w);
    SegmentsOrdered(ks, ys, i, j, v, w);
  }

  /** On ascending keys with non-decreasing values, a point on an earlier or
      the same segment, at a smaller input, is interpolated no higher. */
  lemma SegmentsOrdered(ks: seq<real>, ys: seq<real>, i: nat, j: nat, v: real, w: real)
    requires StrictlyIncreasing(ks) && |ks| == |ys| && NonDecreasing(ys)
    requires i + 1 < |ks| && j + 1 < |ks| && v <= w
    requires ks[i] <= v < ks[i + 1] && ks[j] <= w < ks[j + 1]
    ensures Interpolate(ks[i], ys[i], ks[i + 1], ys[i + 1], v) <= Interpolate(ks[j], ys[j], ks[j + 1], ys[j + 1], w)
  {
    assert ks[i] < ks[j + 1];
    if i == j {
      InterpolateMonotone(ks[i], ys[i], ks[i + 1], ys[i + 1], v, w);
    } else {
      InterpolateBetween(ks[i], ys[i], ks[i + 1], ys[i + 1], v);
      InterpolateBetween(ks[j], ys[j], ks[j + 1], ys[j + 1], w);
      assert ys[i + 1] <= ys[j];
    }
  }

  /** A two-point map {0: 0.0, 10: 1.0} sends 5 to 0.5, the midpoint. */
  lemma MidpointExample()
    ensures TrafoValue(TrafoMap([0.0, 10.0], [0.0, 1.0]), 5.0) == 0.5
  {
    var m := TrafoMap([0.0, 10.0], [0.0, 1.0]);
    assert 5.0 !in m.keys;
    assert Bracket(m.keys, 5.0) == 0;
  }
}
