# Cook County Sales Map — a Dafny model of its classification and state logic

Cook County Sales Map is an interactive choropleth map. It shows property sales in the
assessor neighbourhoods of Cook County, Illinois. For the selected property class, year and
sale statistic, it colours every neighbourhood by which class interval the statistic falls
in. Beside the map it shows a legend, an info panel for the selection (or for the whole
county), and a graph of the yearly trend. All of these hang off one shared state record. Each
field of the record has an ordered list of callbacks, which run whenever that field is updated.

This project models the program's core and proves properties of it:

- **Values and display** (`Common`, `Statistics`). The values that reach the colouring code
  are `undefined`, `null`, `NaN` or an integer (`JsValue`). `isNaN` and truthiness follow
  JavaScript: `null` is not NaN, and 0 is falsy. The module also covers the statistic and
  property-class tables, `numeric_display`, and `getFeatureValue`.
- **Classifier** (`Classifier`). `getChoroplethProps` keeps the numeric feature values and
  takes candidate limits from the binning library. It drops each candidate equal to the last
  limit kept, then samples one colour per interval (a single colour for a single limit).
- **Fill rule** (`Buckets`, `MapFill`). A value gets `colors[i]` for the first `i` with
  `v <= limits[i+1]`. With exactly one limit, every `v <= limits[0]` gets `colors[0]`.
  Everything else gets the `null` fill. `MapFill` models `updateChoropleth` over a layer.
- **Legend** (`Legend`). The legend starts with an "unknown" entry without a swatch. It then
  has one label per colour, from the lower bound to the upper bound; the range collapses when
  the two bounds are equal.
- **State store** (`StateStore`). The state record and its field-to-callbacks registry are a
  class. `registerStateCallback` and `updateState` are its methods. Each callback invocation
  is recorded in a trace. The module also builds the registry the way the script does at
  start-up. Its lemmas show that no view goes stale. Every field's callbacks redraw every view
  drawn from that field. Every callback that reads data derived from the changed field runs
  after a callback that recomputes that data, and none of it is recomputed after it has been
  read. In particular, the legend runs after the classifier.
- **Selection** (`Selection`). Clicking a feature toggles it. Clicking the map outside the
  layer deselects. The neighbourhood selector maps to and from the record's `featureKey`. The
  highlight callback resets every outline, then highlights the first feature of the
  selection.
- **Info panel** (`InfoPanel`). The panel looks up each statistic's value for the year and
  builds the URL of the source-data query.
- **Graph** (`Graph`). A trace's points are the sales years that have data. When no year has
  data, the trace gets a single `null` point. The two extra traces are kept in an array.
- **Plugin** (`PluginChoropleth`). This is the upstream `L.choropleth` layer. It has option
  defaults, its own colour-list rule, and the bucket search with an early exit. The caller's
  style is merged in with `_.defaults`. Lemmas compare it with the map's own fill rule.
  - They colour the same numbers with the same colours whenever there are two or more
    limits.
  - They part ways on a single limit and on `null`.
  - A number above the last limit gets the `null` fill from the map. The plugin leaves its
    fill unset instead, so a caller's `fillColor` applies there.

Inputs the program takes from libraries or the environment are parameters of the model:

- the binning library's limits (`LimitsFunction`);
- the number formatters (`Formatter`);
- the layer's neighbourhood codes and the datasets;
- the sales years.

The colour scale's samples are symbolic (`Sampled(scale, i, n)`).

## Model

| member | source | states |
|---|---|---|
| Statistics.NumericDisplay | cook-county-sales-map.js:45-47 | every falsy value (`undefined`, `null`, `NaN` and also 0) displays as "unknown"; every other number is rendered by the formatter |
| Statistics.ParseNumber | cook-county-sales-map.js:41-44 | `parseFloat` of the data: a number parses to itself, anything else to `NaN` |
| Statistics.GetFeatureValue | cook-county-sales-map.js:80-84 | the value is a number exactly when the neighbourhood, the year and the statistic are all present, and then it is the stored number; otherwise it is `NaN` |
| Classifier.NumericValues | cook-county-sales-map.js:96-102 | the kept values are no more than the feature values and none of them is NaN |
| Classifier.NumericValuesMembers | cook-county-sales-map.js:97-101 | a value is kept exactly when it is a feature value that is not NaN |
| Classifier.NumericValuesMultiset | cook-county-sales-map.js:96-102 | every value that is not NaN is kept exactly as often as it occurs among the feature values, and NaN never |
| Classifier.NoValuesIffAllNaN | cook-county-sales-map.js:96-106 | no value is kept exactly when every feature value is NaN |
| Classifier.Dedup | cook-county-sales-map.js:111-116 | the kept limits number between 1 and the number of candidates, start with the first candidate and end with the last |
| Classifier.GetChoroplethProps | cook-county-sales-map.js:89-122 | with no numeric value, empty limits and empty colours; otherwise the deduplicated candidates, with 1 colour for one limit and one fewer colour than limits otherwise; the limits strictly increase when the candidates do not decrease |
| Classifier.DedupSubsequence | cook-county-sales-map.js:111-116 | the kept limits are a subsequence of the candidates |
| Classifier.DedupNoAdjacentRepeats | cook-county-sales-map.js:112-115 | no two adjacent kept limits are equal |
| Classifier.DedupKeepsValues | cook-county-sales-map.js:111-116 | a number is a kept limit exactly when it is a candidate: every distinct candidate value is kept and none is added |
| Classifier.DedupStrictlyIncreasing | cook-county-sales-map.js:109-116 | nondecreasing candidates give strictly increasing limits |
| Classifier.DedupOfStrictlyIncreasing | cook-county-sales-map.js:111-116 | strictly increasing candidates are kept unchanged |
| Classifier.DedupOfNoAdjacentRepeats | cook-county-sales-map.js:111-116 | candidates without two equal neighbours are kept unchanged |
| Classifier.DedupIdempotent | cook-county-sales-map.js:111-116 | deduplicating the kept limits again changes nothing, for any candidates |
| Buckets.FirstAtMost | cook-county-sales-map.js:176-182 | the search finds the first `i` at or after its start with `v <= limits[i+1]`, and finds none exactly when `v` exceeds every later limit |
| Buckets.FillColor | cook-county-sales-map.js:167-184 | a missing or NaN value has the `null` fill; a number is coloured exactly when it has a bucket, and then with that bucket's colour, which exists |
| Buckets.BucketIndex | cook-county-sales-map.js:173-182 | with one limit, bucket 0 exactly for the values up to it; otherwise a bucket `i` always has `v <= limits[i+1]` |
| Buckets.BucketIsFirstMatch | cook-county-sales-map.js:176-182 | with two or more limits the bucket is `i` exactly when `v <= limits[i+1]` and `v` exceeds every earlier `limits[k]`, `k >= 1`; there is no bucket exactly when `v` exceeds every limit after the first |
| Buckets.SingleLimit | cook-county-sales-map.js:173-175 | with one limit, `v <= limits[0]` is bucket 0 and anything larger has no bucket |
| Buckets.BelowFirstLimit | cook-county-sales-map.js:171-182 | for nondecreasing limits, values up to the first limit land in bucket 0 |
| Buckets.UpToLastLimitClassified | cook-county-sales-map.js:173-182 | every value up to the last limit has a bucket |
| Buckets.AboveLastLimitUnclassified | cook-county-sales-map.js:173-182 | for nondecreasing limits, a value above the last limit has no bucket |
| Buckets.BucketMonotone | cook-county-sales-map.js:173-182 | the bucket never decreases as the value grows, for any limits |
| Buckets.BucketInterval | cook-county-sales-map.js:176-182 | for nondecreasing limits, bucket `i >= 1` holds exactly the integers from `limits[i]+1` to `limits[i+1]`, and bucket 0 everything up to `limits[1]` |
| MapFill.FeatureValues | cook-county-sales-map.js:97-98 | one value per feature, in layer order, each the feature's `getFeatureValue` |
| MapFill.UpdateChoropleth | cook-county-sales-map.js:162-186 | the limits are the deduplicated candidates and the colours the scale's samples, one per interval, when some value is numeric, and both are empty otherwise; every feature's fill is the fill rule applied to its own value |
| MapFill.MissingDataHasNoFill | cook-county-sales-map.js:80-84 | a feature whose neighbourhood, year or statistic is missing gets the `null` fill |
| MapFill.CandidateRangeIsColoured | cook-county-sales-map.js:109-120 | every value up to the last candidate limit is coloured |
| MapFill.DedupKeepsRange | cook-county-sales-map.js:111-116 | for nondecreasing candidates, a value has a bucket under the kept limits exactly when it is at most the last candidate |
| Legend.LowerBound | cook-county-sales-map.js:409-410 | the first label starts at the first limit; every later label starts above its own limit |
| Legend.UpperBound | cook-county-sales-map.js:412-413 | a label has an upper bound exactly when there is a next limit, and then it is that limit |
| Legend.Label | cook-county-sales-map.js:409-414 | every label starts with its displayed lower bound; when there is a next limit different from the lower bound, the label is the displayed lower bound, " &ndash; " and the displayed next limit, and otherwise the displayed lower bound alone |
| Legend.UpdateLegend | cook-county-sales-map.js:405-418 | one more label and swatch than colours; the first is "unknown" without a swatch; label `i+1` is colour `i`'s range; the title is the statistic's caption |
| Legend.ClassificationFitsLegend | cook-county-sales-map.js:396-417 | the classifier's output meets the legend's requirement of at most one colour per limit, so swatches and labels match in length |
| Legend.LabelNamesBucket | cook-county-sales-map.js:409-414 | for nondecreasing limits, every label after the first names exactly its bucket's values; the first starts at `limits[0]` |
| Legend.SingleLimitLabel | cook-county-sales-map.js:409-414 | with a single limit the only label is that limit, and its bucket is everything up to it |
| Legend.LabelCollapses | cook-county-sales-map.js:410-414 | for strictly increasing limits, a label shows only its lower bound exactly when there is no next limit or the bucket holds a single integer; every other label is the displayed lower bound, the separator and the displayed next limit |
| Legend.ZeroBoundLabel | cook-county-sales-map.js:411 | a lower bound of 0 is displayed as "unknown" |
| StateStore.Dispatch | cook-county-sales-map.js:253 | one event per registered callback |
| StateStore.DispatchInOrder | cook-county-sales-map.js:253 | the callbacks run once each, in list order, each with the new value |
| StateStore.OnlyOwnListenersRun | cook-county-sales-map.js:250-255 | an update runs no callback but its own field's |
| StateStore.Store.constructor | cook-county-sales-map.js:147-161 | the record and the registry start as given, with an empty trace |
| StateStore.WithCallback | cook-county-sales-map.js:242-247 | the field's list gains the callback at its end, the field is in the registry afterwards, and every other list is unchanged |
| StateStore.Store.RegisterStateCallback | cook-county-sales-map.js:242-247 | the callback is appended to the end of the field's list, which is created when missing; nothing is deduplicated and nothing else changes |
| StateStore.Store.UpdateState | cook-county-sales-map.js:250-255 | the field is set first, then exactly that field's callbacks run in order with the new value; an unregistered field is only set |
| StateStore.InfoPanelRegistrations | cook-county-sales-map.js:323-325 | the info panel is appended to the lists of the property class, the selection, the year and the statistic; the opacity's list is unchanged |
| StateStore.LegendRegistrations | cook-county-sales-map.js:419-421 | the legend is appended to the lists of the property class, the year and the statistic, and to no other |
| StateStore.GraphRegistrations | cook-county-sales-map.js:549-556 | the main trace is appended to the selection's list, the title and the all-traces refresh to the property class's, the all-traces refresh to the statistic's |
| StateStore.SelectorRegistrations | cook-county-sales-map.js:359-364 | the selector's synchronisation is appended to the selection's list, and to no other |
| StateStore.RegisterInfoPanel | cook-county-sales-map.js:323-325 | the registry becomes the info panel's registrations of the old one; the record and the trace are unchanged |
| StateStore.RegisterLegend | cook-county-sales-map.js:419-421 | the registry becomes the legend's registrations of the old one; the record and the trace are unchanged |
| StateStore.RegisterGraph | cook-county-sales-map.js:549-556 | the registry becomes the graph's registrations of the old one; the record and the trace are unchanged |
| StateStore.RegisterSelectorSync | cook-county-sales-map.js:359-364 | the registry becomes the selector's registration of the old one; the record and the trace are unchanged |
| StateStore.RegisterAtStartup | cook-county-sales-map.js:323-556 | the four groups of registrations are made in script order: info panel, legend, graph, then the selector when its control is added |
| StateStore.StartupAdds | cook-county-sales-map.js:323-556 | whatever the lists before, start-up appends to each field's list exactly its registered callbacks, in order, and removes no field |
| StateStore.DeclaredThenStartupAdded | cook-county-sales-map.js:201-239 | every field has a declared list, and the declared list followed by what start-up appends is the loaded list |
| StateStore.StartupRegistrations | cook-county-sales-map.js:201-239 | the start-up registrations turn the declared registry into the loaded one |
| StateStore.LoadedStore | cook-county-sales-map.js:147-161 | once loaded, the registry is the loaded one, the record holds its initial values and no callback has run |
| StateStore.Bootstrap | cook-county-sales-map.js:624-640 | after start-up the registry is the loaded one, the record holds its initial values with the first sales year, and the only callbacks run are the year's |
| StateStore.LoadedRegistryKeepsViewsFresh | cook-county-sales-map.js:201-239 | once loaded, every change of a field redraws every view drawn from it, every callback that reads data derived from that field runs after the data is recomputed, and no callback reads data that a later callback recomputes |
| StateStore.LoadedRecomputedBeforeRead | cook-county-sales-map.js:202-218 | in every loaded list, each callback that reads the class descriptor and datasets, the statistic descriptor or the classification derived from the list's field runs after a callback of the same list that recomputes it |
| StateStore.LoadedProducersFirst | cook-county-sales-map.js:201-218 | in every loaded list, no callback reads derived data that a later callback of the same list recomputes |
| StateStore.LegendAfterChoropleth | cook-county-sales-map.js:419-421 | for the property class, the year and the statistic, the classifier runs before the legend reads its limits |
| Selection.KeyValue | cook-county-sales-map.js:356 | no selection is `null` and a selection is its code |
| Selection.ClickTarget | cook-county-sales-map.js:270-272 | a click on the selected neighbourhood deselects it; a click on any other selects that one |
| Selection.DoubleClickToggles | cook-county-sales-map.js:271-272 | two clicks in a row on the same feature select it and deselect it again, or the other way round |
| Selection.ClickSelectsOnlyClicked | cook-county-sales-map.js:270-272 | a click never selects another neighbourhood, and selects the clicked one exactly when it was not selected |
| Selection.OnFeatureClick | cook-county-sales-map.js:266-273 | the record's selection becomes the click's target and the selection's callbacks run |
| Selection.OnMapClick | cook-county-sales-map.js:278-282 | with a selection, it is set to `null` and the selection's callbacks run; without one nothing happens |
| Selection.SelectToKey | cook-county-sales-map.js:356 | the "all neighbourhoods" entry means no selection; every other entry is its own code |
| Selection.KeyToSelect | cook-county-sales-map.js:360 | no selection shows the "all neighbourhoods" entry; a selection shows its code (the main trace at line 540 picks its neighbourhood the same way) |
| Selection.SelectRoundTrip | cook-county-sales-map.js:356-363 | every selector entry maps back to itself |
| Selection.KeyRoundTrip | cook-county-sales-map.js:356-363 | a selection survives the round trip through the selector exactly when it is not the "all neighbourhoods" text |
| Selection.NeighborhoodSelect.constructor | cook-county-sales-map.js:354 | the selector starts on the "all neighbourhoods" entry |
| Selection.NeighborhoodSelect.Sync | cook-county-sales-map.js:359-364 | the selector shows the entry for the new selection, and is written exactly when that entry differs from the one shown |
| Selection.NeighborhoodSelect.OnChange | cook-county-sales-map.js:355-357 | the record's selection becomes the chosen entry's and the selection's callbacks run |
| Selection.HighlightedIndex | cook-county-sales-map.js:224-231 | a feature is highlighted exactly when some feature has the selected code, and it is the first one |
| Selection.Outlines | cook-county-sales-map.js:219-233 | one outline per feature |
| Selection.OutlinesHighlightOne | cook-county-sales-map.js:219-233 | at most one outline is highlighted, one is exactly when the selection is on the layer, and it is a feature of the selection |
| Selection.HighlightSelection | cook-county-sales-map.js:219-233 | every outline is reset to the default; then the first feature of the selection, if any, is highlighted and brought to the front |
| InfoPanel.PanelData | cook-county-sales-map.js:301 | the county summary without a selection, else the selected neighbourhood's data when it exists |
| InfoPanel.StatLookup | cook-county-sales-map.js:308 | `null` when the data or its year is missing, `undefined` when only the statistic is, else the stored number |
| InfoPanel.StatRows | cook-county-sales-map.js:306-309 | one row per statistic, in the statistics' order, with its caption and its displayed value |
| InfoPanel.MissingYearAllUnknown | cook-county-sales-map.js:306-309 | without data for the year every statistic reads "unknown" |
| InfoPanel.PresentValueShown | cook-county-sales-map.js:306-309 | a present statistic other than 0 is shown by its formatter; a present 0 reads "unknown" |
| InfoPanel.StatKeysDistinct | cook-county-sales-map.js:137-143 | the statistics' keys are distinct |
| InfoPanel.ClassFilter | cook-county-sales-map.js:313-315 | the class's own filter when it has one, else the prefix filter on the class code |
| InfoPanel.SourceQuery | cook-county-sales-map.js:312-319 | every query starts with the data catalog's address and `year=` |
| InfoPanel.QueryShape | cook-county-sales-map.js:312-319 | every query is the year and class filter, then the neighbourhood clause exactly when a neighbourhood is selected and nothing otherwise, then the row limit |
| InfoPanel.SelectedQueryAddsClause | cook-county-sales-map.js:316-319 | with a selection, the query is the unselected one with the neighbourhood clause inserted before the row limit |
| InfoPanel.ClassFilters | cook-county-sales-map.js:124-135 | class 0 uses its exempt-or-railroad filter, every other class its code prefix |
| Graph.TraceData | cook-county-sales-map.js:510 | the county summary for "all neighbourhoods", else the neighbourhood's data when it exists |
| Graph.TraceName | cook-county-sales-map.js:530 | the county's trace is named "overall", every other trace by its neighbourhood |
| Graph.YearsWithData | cook-county-sales-map.js:514-519 | no more plotted years than sales years, each with data |
| Graph.YearsWithDataMembers | cook-county-sales-map.js:514-519 | a year is plotted exactly when it is a sales year with data |
| Graph.YearsWithDataInOrder | cook-county-sales-map.js:514-519 | the plotted years keep the order of the sales years |
| Graph.UpdateTrace | cook-county-sales-map.js:509-538 | x lists the years with data and y their values, in parallel; with no such year both are a single `null`; the name follows the neighbourhood ("overall" for the county); the hover format and title follow the statistic |
| Graph.MainTraceNamedOverall | cook-county-sales-map.js:530-540 | the main trace is named "overall" exactly when nothing is selected, or the selected code is the selector's "all" entry or is "overall" |
| Graph.GraphControl.constructor | cook-county-sales-map.js:436-437 | two extra traces, none showing a neighbourhood |
| Graph.GraphControl.OnExtraSelect | cook-county-sales-map.js:451-459 | "None" forgets the trace's neighbourhood and hides the trace; any other entry records it and redraws the trace; the other trace is untouched |
| Graph.GraphControl.UpdateExtraTraces | cook-county-sales-map.js:542-548 | exactly the extra traces that show a neighbourhood are redrawn, in trace order |
| Graph.ExtraRefreshes | cook-county-sales-map.js:542-548 | at most one redraw per extra trace, each a redraw of an extra trace, in increasing trace order |
| Graph.ExtraRefreshesExactly | cook-county-sales-map.js:542-548 | a trace is redrawn exactly when its selector shows a neighbourhood, and then for that neighbourhood |
| PluginChoropleth.FeatureValue | plugins/choropleth.js:36-40 | the value-property function's result, or the named property, `undefined` when missing |
| PluginChoropleth.WithDefault | plugins/choropleth.js:5-10 | a given option is kept and a missing one takes the default |
| PluginChoropleth.ChoroplethOptions.constructor | plugins/choropleth.js:2 | the options start as the caller gave them |
| PluginChoropleth.ChoroplethOptions.ApplyDefaults | plugins/choropleth.js:5-10 | `valueProperty`, `scale`, `steps` and `mode` take `'value'`, `['white','red']`, 5 and `'q'` only where the caller gave none |
| PluginChoropleth.ChoroplethOptions.Extend | plugins/choropleth.js:29-32 | the limits, the colours and the style function overwrite those options; nothing else changes |
| PluginChoropleth.SelectColors | plugins/choropleth.js:25-27 | the caller's colours exactly when there is one per limit, else one sample fewer than limits from the scale |
| PluginChoropleth.GivenColorsNeedOnePerLimit | plugins/choropleth.js:25-27 | caller colours of another length are ignored in favour of the scale's samples |
| PluginChoropleth.StyleFill | plugins/choropleth.js:42-52 | the search with its early exit computes the plugin's fill |
| PluginChoropleth.FillStyle | plugins/choropleth.js:33-51 | the style has a `fillColor` exactly when the fill was set, `null` or the colour |
| PluginChoropleth.Defaults | plugins/choropleth.js:55-61 | the merged style has the keys of both, the computed value on every computed key and the caller's elsewhere |
| PluginChoropleth.Choropleth | plugins/choropleth.js:1-65 | defaults are applied, the limits and colours are computed and stored in the options, and every feature's style is its fill merged with the caller's style |
| PluginChoropleth.NaNFillsNull | plugins/choropleth.js:42-51 | a value `isNaN` rejects is filled with `null` |
| PluginChoropleth.PluginFill | plugins/choropleth.js:42-51 | the fill is `null` exactly for values `isNaN` rejects, and a colour fill is one of the colours |
| PluginChoropleth.PluginFillIsFirstMatch | plugins/choropleth.js:44-49 | a number is coloured exactly when some `limits[i+1]` is at least it, and then with the first such `i`'s colour |
| PluginChoropleth.AboveLimitsUnset | plugins/choropleth.js:44-49 | a number above every limit leaves the fill unset, which differs from the `null` fill |
| PluginChoropleth.NoSingleLimitCase | plugins/choropleth.js:44 | with at most one limit nothing is coloured |
| PluginChoropleth.AgreesWithMapFill | plugins/choropleth.js:44-49 | with two or more limits the plugin colours every number as the map's fill rule does |
| PluginChoropleth.SingleLimitDiverges | plugins/choropleth.js:44 | with a single limit, values up to it are coloured by the map but not by the plugin |
| PluginChoropleth.NullDiverges | plugins/choropleth.js:42-49 | the map never fills `null`, while the plugin colours it as 0 |
| PluginChoropleth.UserStyleNeverOverridesFill | plugins/choropleth.js:55-61 | the caller's style never overrides a computed fill, `null` included; it supplies `fillColor` only when the fill is unset, and keeps every other option |

## Left out

- Rendering is not modelled. This covers the Leaflet map, tiles, attribution, geocoder,
  bookmarks, zoom-home, opacity slider, timeline widget and help button, and the Plotly
  calls and layout (`_initPlot`, `_hideTrace`, `Plotly.update`). It also covers the
  jQuery/DOM construction of the selectors and option groups, and the HTML the controls
  assemble: the info panel's header and guide text, its year and class rows, the legend's
  markup and the graph's title text. These are output, not logic. Only the `updateState`
  calls of the widgets, and the data and strings their logic computes, are modelled.
- `chroma.limits` and `chroma.scale` are not modelled. The quantile computation is floating
  point inside a library that is not part of this model. The limits are a function parameter
  returning integer limits that are already truncated, and the classifier requires that
  parameter to give at least one limit for a non-empty value list. The scale's colours are
  symbolic. With no limits the plugin asks the scale for -1 colours; that call is taken to
  return no colours.
- `Math.trunc` and `parseFloat` act on data that is already rounded to integers, so values
  are integers or the `undefined`/`null`/`NaN` markers. String-valued or fractional data is
  not modelled.
- `Intl.NumberFormat` is not modelled. The formatters are function parameters; only the
  "unknown" rule for falsy values is modelled.
- The callbacks' own effects are not modelled. The store's trace records which callback
  ran with which value. What each callback reads and redraws is given by the `Redraws`,
  `DependsOn`, `Produces` and `Consumes` tables.
- Nested `updateState` calls made from inside a callback are not modelled. No callback of
  the map makes one.
- Opacity changes are not modelled beyond storing the value and running the opacity
  callback. The value is a number from 0 to 1 passed straight through.
- StateStore.Bootstrap: does not include the calls the graph control makes directly when it
  is added to the map (`updateTitle` and `updateMainTrace`). They do not go through the
  store, so they are not in its trace.
- PluginChoropleth.ChoroplethOptions.ApplyDefaults: does not model an option the caller set
  to `null`, which stays `null` under `_.defaults`; the model has only present and absent
  options.
- PluginChoropleth.Choropleth: takes the plugin's limits as integers, although the plugin
  itself does not truncate them.
- Graph.UpdateTrace does not model the upper-casing of the axis title, because the model has
  no case mapping.
- Graph.TraceName states only the forward direction for "overall". A neighbourhood whose code
  is "overall" would be named the same as the county's trace.
- Neighbourhood codes are taken to be strings, both in the layer's properties and in the
  selector. The source compares them with `===`, so a numeric `nbhd_code` would never match a
  selector value; the model's `TextValue` codes do not capture that case.
- PluginChoropleth.FeatureValue: the value getter is given the feature's properties. The
  plugin passes the whole feature, and `map` passes the index as well; the getter is not
  further modelled.
- A caller's style function (`UserStyleFor`) is likewise applied to the feature's
  properties, while the plugin calls it with the whole feature.
- `plugins/leaflet-collapsible-control.js` is not part of this model. It only shows and
  hides a panel.
- `tutorial.js` and the tutorial steps are not part of this model. They are static text.
