/** The graph control: the yearly trend of the selected statistic for the selection (the main
    trace) and for up to two further neighbourhoods picked in the graph's own selectors (the
    extra traces). */
module Graph {
  import opened Common
  import opened Statistics
  import opened Selection

  /** The extra selectors' entry for "no trace". */
  const NoTrace: string := "None"
  /** The number of extra traces. */
  const NumExtraTraces: nat := 2

  /** The data a trace of `nbhd` is drawn from: the summary for the county as a whole, else
      the neighbourhood's data, which may be missing. */
  function TraceData(nbhd: string, summary: YearTable, byNbhd: Dataset): (r: Option<YearTable>)
    ensures nbhd == AllNeighborhoods ==> r == Some(summary)
    ensures nbhd != AllNeighborhoods ==> (r.Some? <==> nbhd in byNbhd)
    ensures nbhd != AllNeighborhoods && r.Some? ==> r.value == byNbhd[nbhd]
  {
    if nbhd == AllNeighborhoods then Some(summary)
    else if nbhd in byNbhd then Some(byNbhd[nbhd])
    else None
  }

  /** The trace of `nbhd`'s legend entry: "overall" for the county as a whole. */
  function TraceName(nbhd: string): (r: string)
    ensures nbhd == AllNeighborhoods ==> r == "overall"
    ensures nbhd != AllNeighborhoods ==> r == nbhd
  {
    if nbhd == AllNeighborhoods then "overall" else nbhd
  }

  predicate HasYear(data: Option<YearTable>, year: int) {
    data.Some? && year in data.value
  }

  /** The sales years that have data, in the order of `years`. */
  function YearsWithData(data: Option<YearTable>, years: seq<int>): (r: seq<int>)
    ensures |r| <= |years|
    ensures forall k :: 0 <= k < |r| ==> HasYear(data, r[k])
    decreases |years|
  {
    if years == [] then []
    else
      YearsWithData(data, years[..|years| - 1])
        + (if HasYear(data, years[|years| - 1]) then [years[|years| - 1]] else [])
  }

  /** A year is plotted exactly when it is a sales year with data. */
  lemma {:induction false} YearsWithDataMembers(data: Option<YearTable>, years: seq<int>, year: int)
    ensures year in YearsWithData(data, years) <==> year in years && HasYear(data, year)
    decreases |years|
  {
    if years != [] {
      var init := years[..|years| - 1];
      YearsWithDataMembers(data, init, year);
      assert years == init + [years[|years| - 1]];
    }
  }

  /** The plotted years keep the order of the sales years. */
  lemma {:induction false} YearsWithDataInOrder(data: Option<YearTable>, years: seq<int>)
    ensures IsSubsequence(YearsWithData(data, years), years)
    decreases |years|
  {
    if years != [] {
      var init := years[..|years| - 1];
      YearsWithDataInOrder(data, init);
      var r := YearsWithData(data, years);
      var ri := YearsWithData(data, init);
      if HasYear(data, years[|years| - 1]) {
        assert r[..|r| - 1] == ri;
      } else {
        assert r == ri;
        if r != [] {
          assert years[..|years| - 1] == init;
        }
      }
    }
  }

  /** One trace as handed to the plot: the points, the legend name, the hover format and the
      graph's title. */
  datatype Trace = Trace(x: seq<Option<int>>, y: seq<JsValue>, name: string, hover: string, title: string)

  /** `_updateTrace`: the points of `nbhd` for every sales year with data, each year with the
      statistic's value that year (`undefined` when that statistic is missing); when no year
      has data, a single `null` point, which keeps the trace in the plot's legend. */
  method UpdateTrace(nbhd: string, summary: YearTable, byNbhd: Dataset, years: seq<int>,
                     stat: string, desc: StatDescriptor)
    returns (trace: Trace)
    ensures var data := TraceData(nbhd, summary, byNbhd);
            var plotted := YearsWithData(data, years);
            (plotted == [] ==> trace.x == [None] && trace.y == [Null]) &&
            (plotted != [] ==>
               |trace.x| == |trace.y| == |plotted| &&
               forall k :: 0 <= k < |plotted| ==>
                 trace.x[k] == Some(plotted[k]) && trace.y[k] == StatValue(data.value[plotted[k]], stat))
    ensures trace.name == TraceName(nbhd)
    ensures trace.hover == "%{y" + D3Format(desc.kind) + "}"
    ensures trace.title == "Yearly Trend in " + desc.caption
  {
    var data := TraceData(nbhd, summary, byNbhd);
    var x: seq<Option<int>> := [];
    var y: seq<JsValue> := [];
    for i := 0 to |years|
      invariant |x| == |y| == |YearsWithData(data, years[..i])|
      invariant forall k :: 0 <= k < |x| ==>
                  var yr := YearsWithData(data, years[..i])[k];
                  HasYear(data, yr) && x[k] == Some(yr) && y[k] == StatValue(data.value[yr], stat)
    {
      assert years[..i + 1][..i] == years[..i];
      var year := years[i];
      if data.Some? && year in data.value {
        YearsWithDataMembers(data, years[..i + 1], year);
        x := x + [Some(year)];
        y := y + [StatValue(data.value[year], stat)];
      }
    }
    assert years[..|years|] == years;
    if |x| == 0 {
      x := [None];
      y := [Null];
    }
    trace := Trace(x, y, TraceName(nbhd), "%{y" + D3Format(desc.kind) + "}", "Yearly Trend in " + desc.caption);
  }

  /** The main trace shows the selection, or the county as a whole without one, as the
      neighbourhood selector does. It is named "overall" exactly when nothing is selected, or
      the selected code is the selector's "all" entry or "overall" itself. */
  lemma MainTraceNamedOverall(key: Option<string>)
    ensures TraceName(KeyToSelect(key)) == "overall" <==>
              key.None? || key == Some(AllNeighborhoods) || key == Some("overall")
  {
  }

  /** What a change of an extra selector does to the plot. */
  datatype PlotUpdate = Hide(traceIndex: nat) | Refresh(nbhd: string, traceIndex: nat)

  /** The neighbourhoods of the extra traces, `None` for a trace that is not shown. */
  class GraphControl {
    const extraNbhds: array<Option<string>>

    predicate Valid()
      reads this
    {
      extraNbhds.Length == NumExtraTraces
    }

    constructor ()
      ensures Valid() && fresh(extraNbhds)
      ensures forall i :: 0 <= i < NumExtraTraces ==> extraNbhds[i].None?
    {
      extraNbhds := new Option<string>[NumExtraTraces](_ => None);
    }

    /** A change of the `i`-th extra selector: "None" forgets the neighbourhood and hides
        trace `i + 1`; any other entry records it and redraws that trace for it. */
    method OnExtraSelect(i: nat, val: string) returns (update: PlotUpdate)
      requires Valid() && i < NumExtraTraces
      modifies extraNbhds
      ensures val == NoTrace ==> extraNbhds[i] == None && update == Hide(i + 1)
      ensures val != NoTrace ==> extraNbhds[i] == Some(val) && update == Refresh(val, i + 1)
      ensures forall k :: 0 <= k < NumExtraTraces && k != i ==> extraNbhds[k] == old(extraNbhds[k])
    {
      if val == NoTrace {
        extraNbhds[i] := None;
        update := Hide(i + 1);
      } else {
        extraNbhds[i] := Some(val);
        update := Refresh(val, i + 1);
      }
    }

    /** `updateExtraTraces`: every extra trace that shows a neighbourhood is redrawn, in
        trace order; the hidden ones stay hidden. */
    method UpdateExtraTraces() returns (updates: seq<PlotUpdate>)
      requires Valid()
      ensures updates == ExtraRefreshes(extraNbhds[..])
    {
      updates := [];
      for i := 0 to NumExtraTraces
        invariant updates == ExtraRefreshes(extraNbhds[..i])
      {
        assert extraNbhds[..i + 1][..i] == extraNbhds[..i];
        if extraNbhds[i].Some? {
          updates := updates + [Refresh(extraNbhds[i].value, i + 1)];
        }
      }
      assert extraNbhds[..NumExtraTraces] == extraNbhds[..];
    }
  }

  /** The redraws of the extra traces whose neighbourhoods are `extra`, trace `i + 1` showing
      `extra[i]`. */
  function ExtraRefreshes(extra: seq<Option<string>>): (r: seq<PlotUpdate>)
    ensures |r| <= |extra|
    ensures forall k :: 0 <= k < |r| ==> r[k].Refresh? && 1 <= r[k].traceIndex <= |extra|
    ensures forall a, b :: 0 <= a < b < |r| ==> r[a].traceIndex < r[b].traceIndex
    decreases |extra|
  {
    if extra == [] then []
    else
      ExtraRefreshes(extra[..|extra| - 1])
        + (if extra[|extra| - 1].Some? then [Refresh(extra[|extra| - 1].value, |extra|)] else [])
  }

  /** A trace is redrawn exactly when its selector shows a neighbourhood, and then for that
      neighbourhood; the main trace (index 0) is never among the extra redraws. */
  lemma {:induction false} ExtraRefreshesExactly(extra: seq<Option<string>>, u: PlotUpdate)
    ensures u in ExtraRefreshes(extra) <==>
              u.Refresh? && 1 <= u.traceIndex <= |extra| && extra[u.traceIndex - 1] == Some(u.nbhd)
    decreases |extra|
  {
    if extra != [] {
      ExtraRefreshesExactly(extra[..|extra| - 1], u);
    }
  }
}
