/** The histogram of a sample, as the table builder reads it: `Count` is the
    multiplicity a `Counter` stores for a value, `CountBelow` the number of
    samples strictly below a value, and `SortedKeys` the distinct values in
    ascending order (`sorted(Counter(s).keys())`). */
module Histogram {

  predicate StrictlyIncreasing(ks: seq<real>)
  {
    forall i, j :: 0 <= i < j < |ks| ==> ks[i] < ks[j]
  }

  /** The number of samples equal to v. */
  function Count(s: seq<real>, v: real): (n: nat)
    ensures n <= |s|
    ensures n > 0 <==> v in s
  {
    if s == [] then 0
    else
      assert s == s[..|s| - 1] + [s[|s| - 1]];
      Count(s[..|s| - 1], v) + (if s[|s| - 1] == v then 1 else 0)
  }

  /** The number of samples strictly below v. */
  function CountBelow(s: seq<real>, v: real): nat
  {
    if s == [] then 0
    else CountBelow(s[..|s| - 1], v) + (if s[|s| - 1] < v then 1 else 0)
  }

  /** The sum of the multiplicities of the values in ks. */
  function TotalCount(s: seq<real>, ks: seq<real>): nat
  {
    if ks == [] then 0
    else TotalCount(s, ks[..|ks| - 1]) + Count(s, ks[|ks| - 1])
  }

  /** Appending one key adds its multiplicity. */
  lemma TotalCountSnoc(s: seq<real>, ks: seq<real>, k: real)
    ensures TotalCount(s, ks + [k]) == TotalCount(s, ks) + Count(s, k)
  {
    assert (ks + [k])[..|ks|] == ks;
  }

  /** Inserts x into an ascending sequence of distinct values, where it
      belongs, unless it is already there (`InsertIncreasing`). */
  function Insert(ks: seq<real>, x: real): (r: seq<real>)
    ensures forall y :: y in r <==> y in ks || y == x
  {
    if ks == [] then [x]
    else if x < ks[0] then [x] + ks
    else if x == ks[0] then ks
    else [ks[0]] + Insert(ks[1..], x)
  }

  /** Insertion keeps a sequence strictly ascending. */
  lemma {:induction false} InsertIncreasing(ks: seq<real>, x: real)
    requires StrictlyIncreasing(ks)
    ensures StrictlyIncreasing(Insert(ks, x))
  {
    if ks != [] && x > ks[0] {
      var rest := Insert(ks[1..], x);
      InsertIncreasing(ks[1..], x);
      forall j | 0 <= j < |rest|
        ensures ks[0] < rest[j]
      {
        assert rest[j] in rest;
      }
    }
  }

  /** The distinct values of s, each once (in ascending order, by
      `SortedKeysIncreasing`). */
  function SortedKeys(s: seq<real>): (ks: seq<real>)
    ensures forall y :: y in ks <==> y in s
  {
    if s == [] then []
    else
      assert s == s[..|s| - 1] + [s[|s| - 1]];
      Insert(SortedKeys(s[..|s| - 1]), s[|s| - 1])
  }

  /** The sorted key list is strictly ascending. */
  lemma {:induction false} SortedKeysIncreasing(s: seq<real>)
    ensures StrictlyIncreasing(SortedKeys(s))
  {
    if s != [] {
      SortedKeysIncreasing(s[..|s| - 1]);
      InsertIncreasing(SortedKeys(s[..|s| - 1]), s[|s| - 1]);
    }
  }

  /** Two ascending sequences of distinct values with the same members are
      the same sequence: the sorted key list is determined by the key set. */
  lemma {:induction false} StrictlyIncreasingUnique(a: seq<real>, b: seq<real>)
    requires StrictlyIncreasing(a) && StrictlyIncreasing(b)
    requires forall y :: y in a <==> y in b
    ensures a == b
    decreases |a|
  {
    if a == [] || b == [] {
      EmptyIffNoMembers(a);
      EmptyIffNoMembers(b);
    } else {
      assert a[0] in b && b[0] in a;
      assert a[0] == b[0];
      forall y
        ensures y in a[1..] <==> y in b[1..]
      {
        assert y in a[1..] <==> y in a && y != a[0];
        assert y in b[1..] <==> y in b && y != b[0];
      }
      StrictlyIncreasingUnique(a[1..], b[1..]);
      assert a == [a[0]] + a[1..] && b == [b[0]] + b[1..];
    }
  }

  /** A sequence is empty exactly when nothing is a member of it. */
  lemma EmptyIffNoMembers(s: seq<real>)
    ensures s == [] <==> forall y :: y !in s
  {
    if s != [] {
      var first := s[0];
      assert first in s;
    }
  }

  /** Samples with the same values and multiplicities have the same keys. */
  lemma SortedKeysOfPermutation(s: seq<real>, t: seq<real>)
    requires multiset(s) == multiset(t)
    ensures SortedKeys(s) == SortedKeys(t)
  {
    forall y
      ensures y in SortedKeys(s) <==> y in SortedKeys(t)
    {
      assert y in s <==> y in multiset(s);
      assert y in t <==> y in multiset(t);
    }
    SortedKeysIncreasing(s);
    SortedKeysIncreasing(t);
    StrictlyIncreasingUnique(SortedKeys(s), SortedKeys(t));
  }

  /** `Count` is the multiplicity of v in the multiset of samples. */
  lemma {:induction false} CountIsMultiplicity(s: seq<real>, v: real)
    ensures Count(s, v) == multiset(s)[v]
  {
    if s != [] {
      CountIsMultiplicity(s[..|s| - 1], v);
      assert s == s[..|s| - 1] + [s[|s| - 1]];
      assert multiset(s) == multiset(s[..|s| - 1]) + multiset{s[|s| - 1]};
    }
  }

  /** No sample lies below the least one. */
  lemma {:induction false} CountBelowLeast(s: seq<real>, v: real)
    requires forall k :: 0 <= k < |s| ==> v <= s[k]
    ensures CountBelow(s, v) == 0
  {
    if s != [] {
      CountBelowLeast(s[..|s| - 1], v);
    }
  }

  /** When no sample lies strictly between a and b, the samples below b are
      those below a together with those equal to a. */
  lemma {:induction false} CountBelowStep(s: seq<real>, a: real, b: real)
    requires a < b
    requires forall k :: 0 <= k < |s| ==> s[k] <= a || b <= s[k]
    ensures CountBelow(s, b) == CountBelow(s, a) + Count(s, a)
  {
    if s != [] {
      CountBelowStep(s[..|s| - 1], a, b);
    }
  }

  /** When every sample is at most v, each one is below v or equal to it. */
  lemma {:induction false} CountBelowGreatest(s: seq<real>, v: real)
    requires forall k :: 0 <= k < |s| ==> s[k] <= v
    ensures CountBelow(s, v) + Count(s, v) == |s|
  {
    if s != [] {
      CountBelowGreatest(s[..|s| - 1], v);
    }
  }

  /** Samples below a value and samples equal to it are disjoint. */
  lemma {:induction false} CountBelowBound(s: seq<real>, v: real)
    ensures CountBelow(s, v) + Count(s, v) <= |s|
  {
    if s != [] {
      CountBelowBound(s[..|s| - 1], v);
    }
  }

  /** Between two values a < b, the samples below b include every sample
      below a and every sample equal to a. */
  lemma {:induction false} CountBelowGrows(s: seq<real>, a: real, b: real)
    requires a < b
    ensures CountBelow(s, a) + Count(s, a) <= CountBelow(s, b)
  {
    if s != [] {
      CountBelowGrows(s[..|s| - 1], a, b);
    }
  }

  /** ks lists the distinct values of s in ascending order: every key is a
      sample and every sample is a key. */
  predicate IsKeyList(s: seq<real>, ks: seq<real>)
  {
    && StrictlyIncreasing(ks)
    && (forall k :: 0 <= k < |s| ==> s[k] in ks)
    && (forall i :: 0 <= i < |ks| ==> ks[i] in s)
  }

  /** The sorted key list is a key list of its samples. */
  lemma SortedKeysIsKeyList(s: seq<real>)
    ensures IsKeyList(s, SortedKeys(s))
  {
    var ks := SortedKeys(s);
    SortedKeysIncreasing(s);
    assert forall k :: 0 <= k < |s| ==> s[k] in s;
    assert forall i :: 0 <= i < |ks| ==> ks[i] in ks;
  }

  /** For an ascending key list that holds every sample, a key has exactly
      the samples of the smaller keys below it. */
  lemma {:induction false} CountBelowKeyOf(s: seq<real>, ks: seq<real>, i: nat)
    requires StrictlyIncreasing(ks)
    requires forall k :: 0 <= k < |s| ==> s[k] in ks
    requires i < |ks|
    ensures CountBelow(s, ks[i]) == TotalCount(s, ks[..i])
  {
    if i == 0 {
      NoSampleBetweenKeys(s, ks, 0);
      CountBelowLeast(s, ks[0]);
      assert ks[..0] == [];
    } else {
      CountBelowKeyOf(s, ks, i - 1);
      NoSampleBetweenKeys(s, ks, i);
      CountBelowStep(s, ks[i - 1], ks[i]);
      assert ks[..i][..i - 1] == ks[..i - 1];
    }
  }

  /** When the ascending keys hold every sample, no sample lies below the
      first key or strictly between two adjacent keys. */
  lemma NoSampleBetweenKeys(s: seq<real>, ks: seq<real>, i: nat)
    requires StrictlyIncreasing(ks)
    requires forall k :: 0 <= k < |s| ==> s[k] in ks
    requires i < |ks|
    ensures i == 0 ==> forall k :: 0 <= k < |s| ==> ks[0] <= s[k]
    ensures i > 0 ==> forall k :: 0 <= k < |s| ==> s[k] <= ks[i - 1] || ks[i] <= s[k]
  {
    forall k | 0 <= k < |s|
      ensures ks[0] <= s[k]
      ensures i > 0 ==> s[k] <= ks[i - 1] || ks[i] <= s[k]
    {
      var j :| 0 <= j < |ks| && ks[j] == s[k];
    }
  }

  /** A key in the sorted key list has exactly the samples of the smaller
      keys below it: the running count of the table builder is exact. */
  lemma CountBelowKey(s: seq<real>, i: nat)
    requires i < |SortedKeys(s)|
    ensures CountBelow(s, SortedKeys(s)[i]) == TotalCount(s, SortedKeys(s)[..i])
  {
    var ks := SortedKeys(s);
    SortedKeysIncreasing(s);
    assert forall k :: 0 <= k < |s| ==> s[k] in s;
    CountBelowKeyOf(s, ks, i);
  }

  /** The multiplicities of the distinct values add up to the sample size:
      the table builder's `assert N == len(dataIn)` cannot fail. */
  lemma CountsSumToLength(s: seq<real>)
    ensures TotalCount(s, SortedKeys(s)) == |s|
  {
    var ks := SortedKeys(s);
    if s != [] {
      assert s[0] in ks;
      var n := |ks|;
      CountBelowKey(s, n - 1);
      SortedKeysIncreasing(s);
      forall k | 0 <= k < |s|
        ensures s[k] <= ks[n - 1]
      {
        assert s[k] in s;
        var j :| 0 <= j < |ks| && ks[j] == s[k];
      }
      CountBelowGreatest(s, ks[n - 1]);
      assert ks[..n - 1] == ks[..|ks| - 1];
    }
  }

  /** Samples with the same multiplicities give the same total over any keys. */
  lemma {:induction false} TotalCountOfPermutation(s: seq<real>, t: seq<real>, ks: seq<real>)
    requires multiset(s) == multiset(t)
    ensures TotalCount(s, ks) == TotalCount(t, ks)
  {
    if ks != [] {
      TotalCountOfPermutation(s, t, ks[..|ks| - 1]);
      CountIsMultiplicity(s, ks[|ks| - 1]);
      CountIsMultiplicity(t, ks[|ks| - 1]);
    }
  }
}
