/** `updateLegend`: one swatch and one label per colour, after a leading "unknown" entry
    without a swatch. */
module Legend {
  import opened Common
  import opened Statistics
  import opened Classifier
  import opened Buckets

  /** The separator between the two ends of a range label. */
  const RangeSeparator: string := " &ndash; "

  /** The lowest value the `i`-th label names: the first limit for the first colour, one more
      than `limits[i]` for every later one. */
  function LowerBound(limits: seq<int>, i: nat): (r: int)
    requires i < |limits|
    ensures i == 0 ==> r == limits[0]
    ensures i > 0 ==> r > limits[i]
  {
    if i == 0 then limits[i] else limits[i] + 1
  }

  /** The highest value the `i`-th label names, when there is a next limit. */
  function UpperBound(limits: seq<int>, i: nat): (r: Option<int>)
    ensures r.Some? <==> i + 1 < |limits|
    ensures r.Some? ==> r.value == limits[i + 1]
  {
    if i + 1 < |limits| then Some(limits[i + 1]) else None
  }

  /** The label of the `i`-th colour: the displayed lower bound, followed by the displayed
      upper bound when there is one that differs from the lower bound. */
  function Label(limits: seq<int>, i: nat, format: Formatter): (r: string)
    requires i < |limits|
    ensures NumericDisplay(Num(LowerBound(limits, i)), format) <= r
    ensures i + 1 < |limits| && limits[i + 1] != LowerBound(limits, i) ==>
              r == NumericDisplay(Num(LowerBound(limits, i)), format) + RangeSeparator
                   + NumericDisplay(Num(limits[i + 1]), format)
    ensures !(i + 1 < |limits| && limits[i + 1] != LowerBound(limits, i)) ==>
              r == NumericDisplay(Num(LowerBound(limits, i)), format)
  {
    var lower := LowerBound(limits, i);
    var text := NumericDisplay(Num(lower), format);
    match UpperBound(limits, i)
    case Some(upper) =>
      if upper != lower then text + RangeSeparator + NumericDisplay(Num(upper), format) else text
    case None => text
  }

  /** `updateLegend`: returns the swatches (`None` for the uncoloured first entry), the labels
      and the title handed to the legend control. */
  method UpdateLegend(limits: seq<int>, colors: seq<Color>, stat: StatDescriptor, fmts: Formatters)
    returns (swatches: seq<Option<Color>>, labels: seq<string>, title: string)
    requires |colors| <= |limits|
    ensures |swatches| == |labels| == |colors| + 1
    ensures swatches[0] == None && labels[0] == "unknown"
    ensures forall i :: 0 <= i < |colors| ==>
              swatches[i + 1] == Some(colors[i]) && labels[i + 1] == Label(limits, i, FormatterOf(stat, fmts))
    ensures title == stat.caption
  {
    var format := FormatterOf(stat, fmts);
    labels := ["unknown"];
    for i := 0 to |colors|
      invariant |labels| == i + 1 && labels[0] == "unknown"
      invariant forall k :: 0 <= k < i ==> labels[k + 1] == Label(limits, k, format)
    {
      var lower := if i == 0 then limits[i] else limits[i] + 1;
      var upper := if i + 1 < |limits| then Some(limits[i + 1]) else None;
      var text := Display(stat, Num(lower), fmts);
      if upper.Some? && upper.value != lower {
        text := text + RangeSeparator + Display(stat, Num(upper.value), fmts);
      }
      labels := labels + [text];
    }
    swatches := [None] + seq(|colors|, i requires 0 <= i < |colors| => Some(colors[i]));
    title := stat.caption;
  }

  /** Limits and colours from the classifier meet the legend's precondition, so the swatches
      and labels it passes to the legend control have equal length. */
  lemma ClassificationFitsLegend(limits: seq<int>, colors: seq<Color>)
    requires WellFormed(limits, colors)
    ensures |colors| <= |limits|
  {
  }

  /** For nondecreasing limits, the label of every colour after the first names exactly the
      values of that colour's bucket: from `LowerBound` to `UpperBound`. The first label
      starts at `limits[0]`, yet its bucket also takes the values below it. */
  lemma LabelNamesBucket(limits: seq<int>, i: nat, v: int)
    requires |limits| >= 2 && Nondecreasing(limits) && i < |limits| - 1
    ensures UpperBound(limits, i) == Some(limits[i + 1])
    ensures i > 0 ==> (BucketIndex(v, limits) == Some(i) <==>
                         LowerBound(limits, i) <= v <= UpperBound(limits, i).value)
    ensures i == 0 ==> LowerBound(limits, 0) == limits[0] &&
                       (BucketIndex(v, limits) == Some(0) <==> v <= UpperBound(limits, 0).value)
  {
    BucketInterval(v, limits, i);
  }

  /** With a single limit the only label is that limit, and its bucket is every value up to
      it. */
  lemma SingleLimitLabel(limits: seq<int>, v: int, format: Formatter)
    requires |limits| == 1
    ensures Label(limits, 0, format) == NumericDisplay(Num(limits[0]), format)
    ensures BucketIndex(v, limits) == Some(0) <==> v <= limits[0]
  {
    SingleLimit(v, limits);
  }

  /** For strictly increasing limits, a label collapses to its lower bound exactly when
      there is no next limit (the single colour of a single limit) or when it is a later
      label whose bucket holds a single integer (its two ends are adjacent); every other
      label is the displayed lower bound, the separator and the displayed next limit. */
  lemma LabelCollapses(limits: seq<int>, i: nat, format: Formatter)
    requires StrictlyIncreasing(limits) && i < |limits|
    ensures (i + 1 == |limits| || (i > 0 && limits[i + 1] == limits[i] + 1))
            <==> Label(limits, i, format) == NumericDisplay(Num(LowerBound(limits, i)), format)
    ensures !(i + 1 == |limits| || (i > 0 && limits[i + 1] == limits[i] + 1)) ==>
              Label(limits, i, format) == NumericDisplay(Num(LowerBound(limits, i)), format) + RangeSeparator
                                          + NumericDisplay(Num(limits[i + 1]), format)
  {
    var text := NumericDisplay(Num(LowerBound(limits, i)), format);
    if i + 1 < |limits| && !(i > 0 && limits[i + 1] == limits[i] + 1) {
      assert limits[i] < limits[i + 1];
      assert |Label(limits, i, format)| > |text|;
    }
  }

  /** A lower bound of 0 is displayed as "unknown", like a missing value, because the
      display rule treats every falsy number as unknown. */
  lemma ZeroBoundLabel(limits: seq<int>, i: nat, format: Formatter)
    requires i < |limits| && LowerBound(limits, i) == 0
    ensures Label(limits, i, format)[..|"unknown"|] == "unknown"
  {
  }
}
