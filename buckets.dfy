/** The bucket rule of the map's fill style in `updateChoropleth`: a value `v` receives
    `colors[i]` for the first `i` with `v <= limits[i+1]`, except that with exactly one limit
    every `v <= limits[0]` receives `colors[0]`; everything else has no fill. */
module Buckets {
  import opened Common
  import opened Classifier

  /** The first `i` in `from .. |limits|-2` with `v <= limits[i+1]`, if there is one. */
  function FirstAtMost(v: int, limits: seq<int>, from: nat): (r: Option<nat>)
    ensures r.Some? ==> from <= r.value < |limits| - 1 && v <= limits[r.value + 1]
    ensures r.Some? ==> forall k :: from < k <= r.value ==> v > limits[k]
    ensures r.None? ==> forall k :: from < k < |limits| ==> v > limits[k]
    decreases |limits| - from
  {
    if from + 1 >= |limits| then None
    else if v <= limits[from + 1] then Some(from)
    else FirstAtMost(v, limits, from + 1)
  }

  /** The bucket of a number: with exactly one limit, bucket 0 for everything up to it;
      otherwise the first `i` with `v <= limits[i+1]`. */
  function BucketIndex(v: int, limits: seq<int>): (r: Option<nat>)
    ensures |limits| == 1 ==> (r.Some? <==> v <= limits[0]) && (r.Some? ==> r.value == 0)
    ensures |limits| != 1 && r.Some? ==> r.value < |limits| - 1 && v <= limits[r.value + 1]
  {
    if |limits| == 1 && v <= limits[0] then Some(0) else FirstAtMost(v, limits, 0)
  }

  /** The fill colour of a feature value; `None` stands for the `null` fill. */
  function FillColor(val: JsValue, limits: seq<int>, colors: seq<Color>): (r: Option<Color>)
    requires WellFormed(limits, colors)
    ensures !val.Num? ==> r.None?
    ensures val.Num? ==> (r.Some? <==> BucketIndex(val.n, limits).Some?)
    ensures r.Some? ==> BucketIndex(val.n, limits).value < |colors|
                        && r.value == colors[BucketIndex(val.n, limits).value]
  {
    if val.Null? || IsNaN(val) then None
    else match BucketIndex(val.n, limits)
      case Some(i) => Some(colors[i])
      case None => None
  }

  /** With two or more limits the bucket is the first `i` with `v <= limits[i+1]` (no
      earlier `limits[k]`, `k >= 1`, is at least `v`), and there is none exactly when `v`
      exceeds every limit after the first. */
  lemma BucketIsFirstMatch(v: int, limits: seq<int>, i: nat)
    requires |limits| >= 2
    ensures BucketIndex(v, limits) == Some(i) <==>
              i < |limits| - 1 && v <= limits[i + 1] && forall k :: 0 < k <= i ==> v > limits[k]
    ensures BucketIndex(v, limits).None? <==> forall k :: 0 < k < |limits| ==> v > limits[k]
  {
    var r := BucketIndex(v, limits);
    if r.Some? && i < |limits| - 1 && v <= limits[i + 1] && (forall k :: 0 < k <= i ==> v > limits[k]) {
      assert v > limits[r.value + 1] || r.value + 1 > i;
      assert v > limits[i + 1] || i + 1 > r.value;
    }
  }

  /** With exactly one limit, `v` is in bucket 0 when `v <= limits[0]` and unclassified
      otherwise. */
  lemma SingleLimit(v: int, limits: seq<int>)
    requires |limits| == 1
    ensures v <= limits[0] ==> BucketIndex(v, limits) == Some(0)
    ensures v > limits[0] ==> BucketIndex(v, limits) == None
  {
  }

  /** Values below the first limit land in bucket 0. */
  lemma BelowFirstLimit(v: int, limits: seq<int>)
    requires |limits| >= 1 && Nondecreasing(limits) && v <= limits[0]
    ensures BucketIndex(v, limits) == Some(0)
  {
    if |limits| >= 2 {
      assert limits[0] <= limits[1];
    }
  }

  /** Every value up to the last limit is classified. */
  lemma UpToLastLimitClassified(v: int, limits: seq<int>)
    requires |limits| >= 1 && v <= Last(limits)
    ensures BucketIndex(v, limits).Some?
  {
    if |limits| >= 2 {
      var k := |limits| - 2;
      assert v <= limits[k + 1];
    }
  }

  /** For nondecreasing limits, a value above the last limit is unclassified. */
  lemma AboveLastLimitUnclassified(v: int, limits: seq<int>)
    requires |limits| >= 1 && Nondecreasing(limits) && v > Last(limits)
    ensures BucketIndex(v, limits) == None
  {
    forall k | 0 < k < |limits| ensures v > limits[k] {
      assert limits[k] <= Last(limits);
    }
  }

  /** The bucket index never decreases as the value grows, for any limits: if the larger
      value is classified, so is the smaller one, in the same or an earlier bucket. */
  lemma BucketMonotone(v1: int, v2: int, limits: seq<int>)
    requires v1 <= v2 && BucketIndex(v2, limits).Some?
    ensures BucketIndex(v1, limits).Some?
    ensures BucketIndex(v1, limits).value <= BucketIndex(v2, limits).value
  {
    var i2 := BucketIndex(v2, limits).value;
    if |limits| == 1 {
      assert v1 <= limits[0];
    } else {
      assert v1 <= limits[i2 + 1];
      var r1 := BucketIndex(v1, limits);
      assert r1.Some? ==> (v1 > limits[i2 + 1] || i2 + 1 > r1.value);
    }
  }

  /** For nondecreasing limits, bucket `i >= 1` holds exactly the integers from
      `limits[i] + 1` to `limits[i+1]`, and bucket 0 everything up to `limits[1]`. */
  lemma BucketInterval(v: int, limits: seq<int>, i: nat)
    requires |limits| >= 2 && Nondecreasing(limits) && i < |limits| - 1
    ensures i == 0 ==> (BucketIndex(v, limits) == Some(0) <==> v <= limits[1])
    ensures i > 0 ==> (BucketIndex(v, limits) == Some(i) <==> limits[i] < v <= limits[i + 1])
  {
    BucketIsFirstMatch(v, limits, i);
    if i > 0 && limits[i] < v <= limits[i + 1] {
      forall k | 0 < k <= i ensures v > limits[k] {
        assert limits[k] <= limits[i];
      }
    }
  }
}
