/** `updateChoropleth`: classify the selected statistic of every neighbourhood for the
    selected year and recolour every feature of the layer. */
module MapFill {
  import opened Common
  import opened Statistics
  import opened Classifier
  import opened Buckets

  /** The value of every feature of the layer, in layer order. */
  function FeatureValues(codes: seq<string>, data: Dataset, year: int, stat: string): (r: seq<JsValue>)
    ensures |r| == |codes|
    ensures forall i :: 0 <= i < |codes| ==> r[i] == GetFeatureValue(codes[i], data, year, stat)
  {
    seq(|codes|, i requires 0 <= i < |codes| => GetFeatureValue(codes[i], data, year, stat))
  }

  /** `updateChoropleth` over the layer's features (given by their neighbourhood codes):
      returns the new limits and colours and the fill colour of each feature. */
  method UpdateChoropleth(codes: seq<string>, data: Dataset, year: int, stat: string,
                          chromaLimits: LimitsFunction)
    returns (limits: seq<int>, colors: seq<Color>, fills: seq<Option<Color>>)
    requires var vs := NumericValues(FeatureValues(codes, data, year, stat));
             vs != [] ==> |chromaLimits(vs, DefaultOptions.mode, DefaultOptions.steps)| > 0
    ensures WellFormed(limits, colors)
    ensures var vs := NumericValues(FeatureValues(codes, data, year, stat));
            (vs == [] ==> limits == [] && colors == []) &&
            (vs != [] ==> limits == Dedup(chromaLimits(vs, DefaultOptions.mode, DefaultOptions.steps)) &&
                          colors == ScaleColors(DefaultOptions.scale, ColorCount(|limits|)))
    ensures |fills| == |codes|
    ensures forall i :: 0 <= i < |codes| ==>
              fills[i] == FillColor(GetFeatureValue(codes[i], data, year, stat), limits, colors)
  {
    var values := FeatureValues(codes, data, year, stat);
    limits, colors := GetChoroplethProps(values, chromaLimits, DefaultOptions);
    fills := seq(|codes|, i requires 0 <= i < |codes| => FillColor(values[i], limits, colors));
  }

  /** A feature whose neighbourhood, year or statistic is missing gets no fill. */
  lemma MissingDataHasNoFill(code: string, data: Dataset, year: int, stat: string,
                             limits: seq<int>, colors: seq<Color>)
    requires WellFormed(limits, colors)
    requires !(code in data && year in data[code] && stat in data[code][year])
    ensures FillColor(GetFeatureValue(code, data, year, stat), limits, colors) == None
  {
  }

  /** Every value up to the last candidate limit is coloured. The binning library's last
      limit is the largest value, so every feature with data then gets a colour. */
  lemma CandidateRangeIsColoured(candidates: seq<int>, v: int, scale: seq<string>)
    requires |candidates| > 0 && v <= Last(candidates)
    ensures var limits := Dedup(candidates);
            FillColor(Num(v), limits, ScaleColors(scale, ColorCount(|limits|))).Some?
  {
    UpToLastLimitClassified(v, Dedup(candidates));
  }

  /** A feature's bucket is decided by the deduplicated limits exactly as the candidates
      would decide it, when the candidates are nondecreasing: dropping repeated limits never
      moves a value out of range. */
  lemma DedupKeepsRange(candidates: seq<int>, v: int)
    requires |candidates| > 0 && Nondecreasing(candidates)
    ensures BucketIndex(v, Dedup(candidates)).Some? <==> v <= Last(candidates)
  {
    var limits := Dedup(candidates);
    DedupStrictlyIncreasing(candidates);
    if v <= Last(candidates) {
      UpToLastLimitClassified(v, limits);
    } else {
      AboveLastLimitUnclassified(v, limits);
    }
  }
}
