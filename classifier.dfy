/** The classifier `getChoroplethProps`: collect the features' numeric values, take candidate
    class limits from the binning library, drop repeated limits and sample one colour per
    class. */
module Classifier {
  import opened Common

  /** The classifier's options; the map calls it without any, so the defaults apply. */
  datatype Options = Options(mode: string, steps: int, scale: seq<string>)

  const DefaultOptions: Options := Options("q", 10, ["viridis"])

  /** `chroma.limits(values, mode, steps).map(Math.trunc)`. The binning library is not part of
      this model; it is a function from the values, the mode and the number of steps to the
      candidate limits, already truncated to integers. */
  type LimitsFunction = (seq<JsValue>, string, int) -> seq<int>

  /** The values the classifier keeps: those that are not NaN, in feature order. */
  function NumericValues(vs: seq<JsValue>): (r: seq<JsValue>)
    ensures |r| <= |vs|
    ensures forall k :: 0 <= k < |r| ==> !IsNaN(r[k])
    decreases |vs|
  {
    if vs == [] then []
    else NumericValues(vs[..|vs| - 1]) + (if IsNaN(vs[|vs| - 1]) then [] else [vs[|vs| - 1]])
  }

  /** The limits kept by the deduplication loop after reading all of `c`: the first
      candidate, then every candidate that differs from the last limit kept so far. */
  function Dedup(c: seq<int>): (d: seq<int>)
    requires |c| > 0
    ensures 1 <= |d| <= |c|
    ensures d[0] == c[0]
    ensures Last(d) == Last(c)
    decreases |c|
  {
    if |c| == 1 then [c[0]]
    else
      var d := Dedup(c[..|c| - 1]);
      if c[|c| - 1] != Last(d) then d + [c[|c| - 1]] else d
  }

  /** The number of colours for `n` limits: one per interval between adjacent limits, and a
      single colour when there is only one limit. */
  function ColorCount(n: nat): nat
    requires n >= 1
  {
    if n == 1 then 1 else n - 1
  }

  /** Limits and colours as the classifier returns them: both empty, or at least one limit
      with `ColorCount` colours. */
  predicate WellFormed(limits: seq<int>, colors: seq<Color>) {
    (limits == [] && colors == []) || (limits != [] && |colors| == ColorCount(|limits|))
  }

  /** `getChoroplethProps`: the values that are not NaN are classified; with none, there are
      no limits and no colours. */
  method GetChoroplethProps(featureValues: seq<JsValue>, chromaLimits: LimitsFunction, opts: Options)
    returns (limits: seq<int>, colors: seq<Color>)
    requires NumericValues(featureValues) != [] ==>
               |chromaLimits(NumericValues(featureValues), opts.mode, opts.steps)| > 0
    ensures WellFormed(limits, colors)
    ensures NumericValues(featureValues) == [] ==> limits == [] && colors == []
    ensures NumericValues(featureValues) != [] ==>
              var candidates := chromaLimits(NumericValues(featureValues), opts.mode, opts.steps);
              limits == Dedup(candidates) &&
              colors == ScaleColors(opts.scale, ColorCount(|limits|)) &&
              (Nondecreasing(candidates) ==> StrictlyIncreasing(limits))
  {
    var values: seq<JsValue> := [];
    for i := 0 to |featureValues|
      invariant values == NumericValues(featureValues[..i])
    {
      assert featureValues[..i + 1][..i] == featureValues[..i];
      if !IsNaN(featureValues[i]) {
        values := values + [featureValues[i]];
      }
    }
    assert featureValues[..|featureValues|] == featureValues;
    if |values| == 0 {
      return [], [];
    }
    var candidates := chromaLimits(values, opts.mode, opts.steps);
    limits := [candidates[0]];
    for i := 0 to |candidates| - 1
      invariant limits == Dedup(candidates[..i + 1])
    {
      assert candidates[..i + 2][..i + 1] == candidates[..i + 1];
      if candidates[i + 1] != limits[|limits| - 1] {
        limits := limits + [candidates[i + 1]];
      }
    }
    assert candidates[..|candidates|] == candidates;
    colors := ScaleColors(opts.scale, if |limits| == 1 then 1 else |limits| - 1);
    if Nondecreasing(candidates) {
      DedupStrictlyIncreasing(candidates);
    }
  }

  /** A value survives the filter exactly when it is a feature value that is not NaN. */
  lemma {:induction false} NumericValuesMembers(vs: seq<JsValue>, v: JsValue)
    ensures v in NumericValues(vs) <==> v in vs && !IsNaN(v)
    decreases |vs|
  {
    if vs != [] {
      var init := vs[..|vs| - 1];
      NumericValuesMembers(init, v);
      assert vs == init + [vs[|vs| - 1]];
    }
  }

  /** The filter keeps every value that is not NaN as often as it occurs, so the binning
      library sees each value with its own count. */
  lemma {:induction false} NumericValuesMultiset(vs: seq<JsValue>, v: JsValue)
    ensures multiset(NumericValues(vs))[v] == if IsNaN(v) then 0 else multiset(vs)[v]
    decreases |vs|
  {
    if vs != [] {
      var init := vs[..|vs| - 1];
      NumericValuesMultiset(init, v);
      assert vs == init + [vs[|vs| - 1]];
    }
  }

  /** The classifier receives no values exactly when every feature value is NaN. */
  lemma NoValuesIffAllNaN(vs: seq<JsValue>)
    ensures NumericValues(vs) == [] <==> forall k :: 0 <= k < |vs| ==> IsNaN(vs[k])
  {
    if NumericValues(vs) == [] {
      forall k | 0 <= k < |vs| ensures IsNaN(vs[k]) {
        NumericValuesMembers(vs, vs[k]);
      }
    } else {
      var v := NumericValues(vs)[0];
      NumericValuesMembers(vs, v);
      var k :| 0 <= k < |vs| && vs[k] == v;
    }
  }

  /** The kept limits are the candidates with some entries deleted, in their order. */
  lemma {:induction false} DedupSubsequence(c: seq<int>)
    requires |c| > 0
    ensures IsSubsequence(Dedup(c), c)
    decreases |c|
  {
    if |c| > 1 {
      var init := c[..|c| - 1];
      var d := Dedup(init);
      DedupSubsequence(init);
      if c[|c| - 1] != Last(d) {
        assert (d + [c[|c| - 1]])[..|d|] == d;
      } else {
        SubsequenceOfLonger(d, init, c[|c| - 1]);
        assert init + [c[|c| - 1]] == c;
      }
    }
  }

  lemma SubsequenceOfLonger(a: seq<int>, b: seq<int>, x: int)
    requires IsSubsequence(a, b)
    ensures IsSubsequence(a, b + [x])
  {
    assert (b + [x])[..|b|] == b;
  }

  /** No two adjacent kept limits are equal. */
  lemma {:induction false} DedupNoAdjacentRepeats(c: seq<int>)
    requires |c| > 0
    ensures forall k :: 0 <= k < |Dedup(c)| - 1 ==> Dedup(c)[k] != Dedup(c)[k + 1]
    decreases |c|
  {
    if |c| > 1 {
      DedupNoAdjacentRepeats(c[..|c| - 1]);
    }
  }

  /** Deduplication keeps every distinct candidate value and adds none. */
  lemma {:induction false} DedupKeepsValues(c: seq<int>, x: int)
    requires |c| > 0
    ensures x in Dedup(c) <==> x in c
    decreases |c|
  {
    if |c| > 1 {
      var init := c[..|c| - 1];
      DedupKeepsValues(init, x);
      assert c == init + [c[|c| - 1]];
      assert Last(Dedup(init)) in Dedup(init);
    }
  }

  /** For nondecreasing candidates (as quantile limits are) the kept limits strictly increase. */
  lemma {:induction false} DedupStrictlyIncreasing(c: seq<int>)
    requires |c| > 0 && Nondecreasing(c)
    ensures StrictlyIncreasing(Dedup(c))
    decreases |c|
  {
    if |c| > 1 {
      var init := c[..|c| - 1];
      assert Nondecreasing(init);
      DedupStrictlyIncreasing(init);
      var d := Dedup(init);
      if c[|c| - 1] != Last(d) {
        assert Last(d) == Last(init) <= c[|c| - 1];
        var d' := d + [c[|c| - 1]];
        forall i, j | 0 <= i < j < |d'| ensures d'[i] < d'[j] {
          if j < |d| {
            assert d'[i] == d[i] && d'[j] == d[j];
          } else if i < |d| - 1 {
            assert d[i] < Last(d);
          }
        }
      }
    }
  }

  /** Limits that already strictly increase are kept unchanged. */
  lemma {:induction false} DedupOfStrictlyIncreasing(c: seq<int>)
    requires |c| > 0 && StrictlyIncreasing(c)
    ensures Dedup(c) == c
    decreases |c|
  {
    if |c| > 1 {
      var init := c[..|c| - 1];
      assert StrictlyIncreasing(init);
      DedupOfStrictlyIncreasing(init);
      assert Last(init) < c[|c| - 1];
      assert init + [c[|c| - 1]] == c;
    }
  }

  /** Limits without two equal neighbours are kept unchanged. */
  lemma {:induction false} DedupOfNoAdjacentRepeats(c: seq<int>)
    requires |c| > 0
    requires forall k :: 0 <= k < |c| - 1 ==> c[k] != c[k + 1]
    ensures Dedup(c) == c
    decreases |c|
  {
    if |c| > 1 {
      var init := c[..|c| - 1];
      DedupOfNoAdjacentRepeats(init);
      assert c[|c| - 2] != c[|c| - 1];
      assert init + [c[|c| - 1]] == c;
    }
  }

  /** Deduplicating the kept limits again changes nothing, whatever the candidates. */
  lemma DedupIdempotent(c: seq<int>)
    requires |c| > 0
    ensures Dedup(Dedup(c)) == Dedup(c)
  {
    DedupNoAdjacentRepeats(c);
    DedupOfNoAdjacentRepeats(Dedup(c));
  }
}
