/** The shared state record and its callback registry (`state`, `stateCallbacks`,
    `registerStateCallback`, `updateState`), with the registry the map builds at start-up. */
module StateStore {
  import opened Common

  /** The state fields that `updateState` is called with. */
  datatype Field = PropertyClass | Year | Stat | FeatureKey | Opacity

  /** A value stored in a state field. */
  datatype Value = NullValue | IntValue(i: int) | TextValue(s: string) | RealValue(r: real)

  /** The callbacks the map registers. Their effects on the page are not modelled; the store
      records each call in its trace. */
  datatype Callback =
    | RefreshClassDataCb        // property-class descriptor and the two dataset pointers
    | RefreshStatPropsCb        // statistic descriptor
    | UpdateChoroplethCb        // limits, colours and fill colours
    | HighlightSelectionCb      // outline of the selected neighbourhood
    | ApplyOpacityCb            // layer opacity
    | UpdateInfoCb              // info panel
    | UpdateLegendCb            // legend
    | SyncNeighborhoodSelectCb  // neighbourhood selector shows the selection
    | UpdateMainTraceCb         // the graph's trace of the selection
    | UpdateGraphTitleCb        // the graph's title
    | UpdateAllTracesCb         // the graph's main and extra traces

  /** One callback invocation, with the value it was passed. */
  datatype Event = Invoked(callback: Callback, arg: Value)

  /** The callbacks registered for a field, in registration order. */
  function Listeners(registry: map<Field, seq<Callback>>, field: Field): seq<Callback> {
    if field in registry then registry[field] else []
  }

  /** The events of calling `callbacks` in order, each with `val`. */
  function Dispatch(callbacks: seq<Callback>, val: Value): (r: seq<Event>)
    ensures |r| == |callbacks|
    decreases |callbacks|
  {
    if callbacks == [] then []
    else Dispatch(callbacks[..|callbacks| - 1], val) + [Invoked(callbacks[|callbacks| - 1], val)]
  }

  /** The registry with `callback` appended to the list of `field`: that list gains it at its
      end, every other list is unchanged. */
  function WithCallback(registry: map<Field, seq<Callback>>, field: Field, callback: Callback): (r: map<Field, seq<Callback>>)
    ensures Listeners(r, field) == Listeners(registry, field) + [callback]
    ensures forall f :: f != field ==> Listeners(r, f) == Listeners(registry, f)
    ensures r.Keys == registry.Keys + {field}
  {
    registry[field := Listeners(registry, field) + [callback]]
  }

  /** Dispatch calls every callback once, in list order, each with the new value. */
  lemma {:induction false} DispatchInOrder(callbacks: seq<Callback>, val: Value)
    ensures |Dispatch(callbacks, val)| == |callbacks|
    ensures forall i :: 0 <= i < |callbacks| ==> Dispatch(callbacks, val)[i] == Invoked(callbacks[i], val)
    decreases |callbacks|
  {
    if callbacks != [] {
      DispatchInOrder(callbacks[..|callbacks| - 1], val);
    }
  }

  /** An update runs no callback but those registered for its own field. */
  lemma OnlyOwnListenersRun(registry: map<Field, seq<Callback>>, field: Field, val: Value, e: Event)
    requires e in Dispatch(Listeners(registry, field), val)
    ensures e.callback in Listeners(registry, field) && e.arg == val
  {
    DispatchInOrder(Listeners(registry, field), val);
  }

  /** The store: the state record, the callback registry and the trace of the callbacks
      invoked so far. */
  class Store {
    var state: map<Field, Value>
    var callbacks: map<Field, seq<Callback>>
    var trace: seq<Event>

    constructor (initialState: map<Field, Value>, initialCallbacks: map<Field, seq<Callback>>)
      ensures state == initialState && callbacks == initialCallbacks && trace == []
    {
      state := initialState;
      callbacks := initialCallbacks;
      trace := [];
    }

    /** `registerStateCallback`: appends the callback to the field's list, creating the list
        when the field has none; nothing is deduplicated. */
    method RegisterStateCallback(field: Field, callback: Callback)
      modifies this`callbacks
      ensures callbacks == WithCallback(old(callbacks), field, callback)
      ensures state == old(state) && trace == old(trace)
    {
      if field !in callbacks {
        callbacks := callbacks[field := []];
      }
      callbacks := callbacks[field := callbacks[field] + [callback]];
    }

    /** `updateState`: sets the field, then calls the field's callbacks in order with the new
        value. There is no check that the value changed, and a field without callbacks is
        only set. */
    method UpdateState(field: Field, val: Value)
      modifies this`state, this`trace
      ensures state == old(state)[field := val]
      ensures callbacks == old(callbacks)
      ensures trace == old(trace) + Dispatch(Listeners(callbacks, field), val)
      ensures field !in callbacks ==> trace == old(trace)
    {
      state := state[field := val];
      if field in callbacks {
        var list := callbacks[field];
        for i := 0 to |list|
          invariant state == old(state)[field := val]
          invariant trace == old(trace) + Dispatch(list[..i], val)
        {
          assert list[..i + 1][..i] == list[..i];
          trace := trace + [Invoked(list[i], val)];
        }
        assert list[..|list|] == list;
      } else {
        assert Dispatch(Listeners(callbacks, field), val) == [];
        assert trace == old(trace) + [];
      }
    }
  }

  /** The registry as the `stateCallbacks` literal declares it. */
  const DeclaredCallbacks: map<Field, seq<Callback>> := map[
    PropertyClass := [RefreshClassDataCb, UpdateChoroplethCb],
    Year := [UpdateChoroplethCb],
    Stat := [RefreshStatPropsCb, UpdateChoroplethCb],
    FeatureKey := [HighlightSelectionCb],
    Opacity := [ApplyOpacityCb]
  ]

  /** The registry once the map has loaded: the declared lists, then the info panel, the
      legend and the graph registrations in the order the script makes them, and last the
      neighbourhood selector's, made when the selection control is added to the map. */
  const LoadedCallbacks: map<Field, seq<Callback>> := map[
    PropertyClass := [RefreshClassDataCb, UpdateChoroplethCb, UpdateInfoCb, UpdateLegendCb, UpdateGraphTitleCb, UpdateAllTracesCb],
    Year := [UpdateChoroplethCb, UpdateInfoCb, UpdateLegendCb],
    Stat := [RefreshStatPropsCb, UpdateChoroplethCb, UpdateInfoCb, UpdateLegendCb, UpdateAllTracesCb],
    FeatureKey := [HighlightSelectionCb, UpdateInfoCb, UpdateMainTraceCb, SyncNeighborhoodSelectCb],
    Opacity := [ApplyOpacityCb]
  ]

  /** The record's initial values; the year is the first of the sales years. */
  function InitialState(firstYear: int): map<Field, Value> {
    map[
      Year := IntValue(firstYear),
      PropertyClass := TextValue("2"),
      FeatureKey := NullValue,
      Stat := TextValue("mean"),
      Opacity := RealValue(0.7)
    ]
  }

  /** The info panel's registrations: it is refreshed on every change but the opacity's. */
  function InfoPanelRegistrations(registry: map<Field, seq<Callback>>): (r: map<Field, seq<Callback>>)
    ensures forall f :: f != Opacity ==> Listeners(r, f) == Listeners(registry, f) + [UpdateInfoCb]
    ensures Listeners(r, Opacity) == Listeners(registry, Opacity)
    ensures registry.Keys <= r.Keys
  {
    var r1 := WithCallback(registry, PropertyClass, UpdateInfoCb);
    var r2 := WithCallback(r1, FeatureKey, UpdateInfoCb);
    var r3 := WithCallback(r2, Year, UpdateInfoCb);
    WithCallback(r3, Stat, UpdateInfoCb)
  }

  /** The legend's registrations: it is redrawn when the classification can change. */
  function LegendRegistrations(registry: map<Field, seq<Callback>>): (r: map<Field, seq<Callback>>)
    ensures forall f :: f in {PropertyClass, Year, Stat} ==> Listeners(r, f) == Listeners(registry, f) + [UpdateLegendCb]
    ensures forall f :: f !in {PropertyClass, Year, Stat} ==> Listeners(r, f) == Listeners(registry, f)
    ensures registry.Keys <= r.Keys
  {
    var r1 := WithCallback(registry, PropertyClass, UpdateLegendCb);
    var r2 := WithCallback(r1, Year, UpdateLegendCb);
    WithCallback(r2, Stat, UpdateLegendCb)
  }

  /** The graph's registrations: the selection's trace on a new selection, the title and all
      traces on a new property class, all traces on a new statistic. */
  function GraphRegistrations(registry: map<Field, seq<Callback>>): (r: map<Field, seq<Callback>>)
    ensures Listeners(r, FeatureKey) == Listeners(registry, FeatureKey) + [UpdateMainTraceCb]
    ensures Listeners(r, PropertyClass) == Listeners(registry, PropertyClass) + [UpdateGraphTitleCb, UpdateAllTracesCb]
    ensures Listeners(r, Stat) == Listeners(registry, Stat) + [UpdateAllTracesCb]
    ensures Listeners(r, Year) == Listeners(registry, Year) && Listeners(r, Opacity) == Listeners(registry, Opacity)
    ensures registry.Keys <= r.Keys
  {
    var r1 := WithCallback(registry, FeatureKey, UpdateMainTraceCb);
    var r2 := WithCallback(r1, PropertyClass, UpdateGraphTitleCb);
    var r3 := WithCallback(r2, PropertyClass, UpdateAllTracesCb);
    WithCallback(r3, Stat, UpdateAllTracesCb)
  }

  /** The neighbourhood selector's registration, made when its control is added to the map. */
  function SelectorRegistrations(registry: map<Field, seq<Callback>>): (r: map<Field, seq<Callback>>)
    ensures Listeners(r, FeatureKey) == Listeners(registry, FeatureKey) + [SyncNeighborhoodSelectCb]
    ensures forall f :: f != FeatureKey ==> Listeners(r, f) == Listeners(registry, f)
    ensures registry.Keys <= r.Keys
  {
    WithCallback(registry, FeatureKey, SyncNeighborhoodSelectCb)
  }

  /** The registry once the four groups of registrations have been made, in the order the
      script makes them. */
  function StartupRegistry(declared: map<Field, seq<Callback>>): map<Field, seq<Callback>> {
    SelectorRegistrations(GraphRegistrations(LegendRegistrations(InfoPanelRegistrations(declared))))
  }

  /** The callbacks the start-up registrations append to each field's list, in order. */
  function StartupAdded(f: Field): seq<Callback> {
    match f
    case PropertyClass => [UpdateInfoCb, UpdateLegendCb, UpdateGraphTitleCb, UpdateAllTracesCb]
    case Year => [UpdateInfoCb, UpdateLegendCb]
    case Stat => [UpdateInfoCb, UpdateLegendCb, UpdateAllTracesCb]
    case FeatureKey => [UpdateInfoCb, UpdateMainTraceCb, SyncNeighborhoodSelectCb]
    case Opacity => []
  }

  /** The start-up registrations append `StartupAdded(f)` to the list of `f`, whatever the
      lists before, and remove no field. */
  lemma StartupAdds(declared: map<Field, seq<Callback>>, f: Field)
    ensures Listeners(StartupRegistry(declared), f) == Listeners(declared, f) + StartupAdded(f)
    ensures declared.Keys <= StartupRegistry(declared).Keys
  {
    var before := Listeners(declared, f);
    match f
    case PropertyClass =>
      assert before + [UpdateInfoCb] + [UpdateLegendCb] + [UpdateGraphTitleCb, UpdateAllTracesCb] == before + StartupAdded(f);
    case Year =>
      assert before + [UpdateInfoCb] + [UpdateLegendCb] == before + StartupAdded(f);
    case Stat =>
      assert before + [UpdateInfoCb] + [UpdateLegendCb] + [UpdateAllTracesCb] == before + StartupAdded(f);
    case FeatureKey =>
      assert before + [UpdateInfoCb] + [UpdateMainTraceCb] + [SyncNeighborhoodSelectCb] == before + StartupAdded(f);
    case Opacity =>
      assert before + [] == before;
  }

  /** The declared lists followed by what start-up appends are the loaded lists. */
  lemma DeclaredThenStartupAdded()
    ensures forall f :: f in DeclaredCallbacks && f in LoadedCallbacks
    ensures forall f :: Listeners(DeclaredCallbacks, f) + StartupAdded(f) == Listeners(LoadedCallbacks, f)
  {
    forall f ensures f in DeclaredCallbacks && f in LoadedCallbacks {
      match f
      case PropertyClass =>
      case Year =>
      case Stat =>
      case FeatureKey =>
      case Opacity =>
    }
  }

  /** Two registries that hold every field and agree on every list are equal. */
  lemma SameLists(r: map<Field, seq<Callback>>, s: map<Field, seq<Callback>>)
    requires forall f :: f in r && f in s
    requires forall f :: Listeners(r, f) == Listeners(s, f)
    ensures r == s
  {
    forall f ensures r[f] == s[f] {
      assert Listeners(r, f) == r[f] && Listeners(s, f) == s[f];
    }
    assert r.Keys == s.Keys;
  }

  /** The four groups of registrations, in the order the script makes them, turn the declared
      registry into the loaded one. */
  lemma StartupRegistrations(declared: map<Field, seq<Callback>>)
    requires declared == DeclaredCallbacks
    ensures StartupRegistry(declared) == LoadedCallbacks
  {
    DeclaredThenStartupAdded();
    var r := StartupRegistry(declared);
    forall f ensures f in r && Listeners(r, f) == Listeners(LoadedCallbacks, f) {
      StartupAdds(declared, f);
    }
    SameLists(r, LoadedCallbacks);
  }

  /** The info panel's registrations. */
  method RegisterInfoPanel(store: Store)
    modifies store`callbacks
    ensures store.callbacks == InfoPanelRegistrations(old(store.callbacks))
    ensures store.state == old(store.state) && store.trace == old(store.trace)
  {
    store.RegisterStateCallback(PropertyClass, UpdateInfoCb);
    store.RegisterStateCallback(FeatureKey, UpdateInfoCb);
    store.RegisterStateCallback(Year, UpdateInfoCb);
    store.RegisterStateCallback(Stat, UpdateInfoCb);
  }

  /** The legend's registrations. */
  method RegisterLegend(store: Store)
    modifies store`callbacks
    ensures store.callbacks == LegendRegistrations(old(store.callbacks))
    ensures store.state == old(store.state) && store.trace == old(store.trace)
  {
    store.RegisterStateCallback(PropertyClass, UpdateLegendCb);
    store.RegisterStateCallback(Year, UpdateLegendCb);
    store.RegisterStateCallback(Stat, UpdateLegendCb);
  }

  /** The graph's registrations. */
  method RegisterGraph(store: Store)
    modifies store`callbacks
    ensures store.callbacks == GraphRegistrations(old(store.callbacks))
    ensures store.state == old(store.state) && store.trace == old(store.trace)
  {
    store.RegisterStateCallback(FeatureKey, UpdateMainTraceCb);
    store.RegisterStateCallback(PropertyClass, UpdateGraphTitleCb);
    store.RegisterStateCallback(PropertyClass, UpdateAllTracesCb);
    store.RegisterStateCallback(Stat, UpdateAllTracesCb);
  }

  /** The neighbourhood selector's registration. */
  method RegisterSelectorSync(store: Store)
    modifies store`callbacks
    ensures store.callbacks == SelectorRegistrations(old(store.callbacks))
    ensures store.state == old(store.state) && store.trace == old(store.trace)
  {
    store.RegisterStateCallback(FeatureKey, SyncNeighborhoodSelectCb);
  }

  /** The registrations the script makes at start-up, in its order. */
  method RegisterAtStartup(store: Store)
    modifies store`callbacks
    ensures store.callbacks == StartupRegistry(old(store.callbacks))
    ensures store.state == old(store.state) && store.trace == old(store.trace)
  {
    RegisterInfoPanel(store);
    RegisterLegend(store);
    RegisterGraph(store);
    RegisterSelectorSync(store);
  }

  /** The store once the map has loaded: the initial record, the declared callbacks and the
      registrations made at start-up, and nothing invoked yet. */
  method LoadedStore(firstYear: int) returns (store: Store)
    ensures fresh(store)
    ensures store.callbacks == LoadedCallbacks
    ensures store.state == InitialState(firstYear) && store.trace == []
  {
    store := new Store(InitialState(firstYear), DeclaredCallbacks);
    ghost var declared := store.callbacks;
    RegisterAtStartup(store);
    StartupRegistrations(declared);
  }

  /** Start-up: the loaded store, then the timeline's initial change, which sets the year to
      the first sales year and so draws the map for the first time. */
  method Bootstrap(years: seq<int>) returns (store: Store)
    requires |years| > 0
    ensures fresh(store)
    ensures store.callbacks == LoadedCallbacks
    ensures store.state == InitialState(years[0])
    ensures store.trace == Dispatch(LoadedCallbacks[Year], IntValue(years[0]))
  {
    store := LoadedStore(years[0]);
    assert store.state[Year := IntValue(years[0])] == InitialState(years[0]);
    ghost var yearListeners := Listeners(store.callbacks, Year);
    assert yearListeners == LoadedCallbacks[Year];
    store.UpdateState(Year, IntValue(years[0]));
  }

  /** What the page shows, each part drawn by its own callbacks. */
  datatype View = MapFillView | LegendView | InfoView | MainTraceView | ExtraTracesView
                | GraphTitleView | HighlightView | SelectorView | OpacityView

  /** The views a callback redraws. */
  function Redraws(cb: Callback): set<View> {
    match cb
    case RefreshClassDataCb => {}
    case RefreshStatPropsCb => {}
    case UpdateChoroplethCb => {MapFillView}
    case HighlightSelectionCb => {HighlightView}
    case ApplyOpacityCb => {OpacityView}
    case UpdateInfoCb => {InfoView}
    case UpdateLegendCb => {LegendView}
    case SyncNeighborhoodSelectCb => {SelectorView}
    case UpdateMainTraceCb => {MainTraceView}
    case UpdateGraphTitleCb => {GraphTitleView}
    case UpdateAllTracesCb => {MainTraceView, ExtraTracesView}
  }

  /** The state fields each view is drawn from, directly or through the data derived from
      them. */
  function DependsOn(view: View): set<Field> {
    match view
    case MapFillView => {PropertyClass, Year, Stat}
    case LegendView => {PropertyClass, Year, Stat}
    case InfoView => {PropertyClass, Year, Stat, FeatureKey}
    case MainTraceView => {PropertyClass, Stat, FeatureKey}
    case ExtraTracesView => {PropertyClass, Stat}
    case GraphTitleView => {PropertyClass}
    case HighlightView => {FeatureKey}
    case SelectorView => {FeatureKey}
    case OpacityView => {Opacity}
  }

  /** Data that callbacks derive from the record and other callbacks read. */
  datatype Derived = ClassData | StatProps | Classification

  function Produces(cb: Callback): set<Derived> {
    match cb
    case RefreshClassDataCb => {ClassData}
    case RefreshStatPropsCb => {StatProps}
    case UpdateChoroplethCb => {Classification}
    case _ => {}
  }

  function Consumes(cb: Callback): set<Derived> {
    match cb
    case UpdateChoroplethCb => {ClassData, StatProps}
    case UpdateInfoCb => {ClassData}
    case UpdateLegendCb => {Classification, StatProps}
    case UpdateMainTraceCb => {ClassData, StatProps}
    case UpdateAllTracesCb => {ClassData, StatProps}
    case _ => {}
  }

  /** The state fields that derived data is computed from: the property-class descriptor
      and datasets from the class, the statistic descriptor from the statistic, and the
      classification from all three. */
  function Sources(d: Derived): set<Field> {
    match d
    case ClassData => {PropertyClass}
    case StatProps => {Stat}
    case Classification => {PropertyClass, Year, Stat}
  }

  /** Every callback of `field`'s list that reads data derived from `field` runs after some
      earlier callback of the list that recomputes that data. */
  predicate RecomputedBeforeRead(callbacks: seq<Callback>, field: Field) {
    forall i, d :: 0 <= i < |callbacks| && d in Consumes(callbacks[i]) && field in Sources(d) ==>
      exists j :: 0 <= j < i && d in Produces(callbacks[j])
  }

  /** Every view that depends on a field is redrawn by some callback of that field. */
  predicate Covers(registry: map<Field, seq<Callback>>) {
    forall field, view :: field in DependsOn(view) ==> Redrawn(Listeners(registry, field), view)
  }

  /** Some callback of the list redraws the view. */
  predicate Redrawn(callbacks: seq<Callback>, view: View) {
    exists i :: 0 <= i < |callbacks| && view in Redraws(callbacks[i])
  }

  /** No callback reads derived data that a later callback of the same field recomputes. */
  predicate ProducersFirst(callbacks: seq<Callback>) {
    forall i, j :: 0 <= i < j < |callbacks| ==> Produces(callbacks[j]) !! Consumes(callbacks[i])
  }

  /** Once loaded, no view goes stale: every change of a field redraws every view drawn from
      it, every callback that reads data derived from the changed field runs after that data
      is recomputed, and none of it is recomputed after it has been read. */
  lemma LoadedRegistryKeepsViewsFresh()
    ensures Covers(LoadedCallbacks)
    ensures forall field :: RecomputedBeforeRead(Listeners(LoadedCallbacks, field), field)
    ensures forall field :: ProducersFirst(Listeners(LoadedCallbacks, field))
  {
    forall field ensures RecomputedBeforeRead(Listeners(LoadedCallbacks, field), field) {
      LoadedRecomputedBeforeRead(field);
    }
    forall field, view | field in DependsOn(view) ensures Redrawn(Listeners(LoadedCallbacks, field), view) {
      var i := WitnessRedraw(field, view);
    }
    forall field ensures ProducersFirst(Listeners(LoadedCallbacks, field)) {
      LoadedProducersFirst(field);
    }
  }

  /** In every loaded list, data derived from the list's field is recomputed before any
      callback reads it. */
  lemma LoadedRecomputedBeforeRead(field: Field)
    ensures RecomputedBeforeRead(Listeners(LoadedCallbacks, field), field)
  {
    var list := Listeners(LoadedCallbacks, field);
    forall i, d | 0 <= i < |list| && d in Consumes(list[i]) && field in Sources(d)
      ensures exists j :: 0 <= j < i && d in Produces(list[j])
    {
      var j := if d == Classification && field != Year then 1 else 0;
      assert d in Produces(list[j]);
    }
  }

  /** In every loaded list, no callback reads derived data that a later callback of the list
      recomputes. */
  lemma LoadedProducersFirst(field: Field)
    ensures ProducersFirst(Listeners(LoadedCallbacks, field))
  {
    var list := Listeners(LoadedCallbacks, field);
    forall i, j | 0 <= i < j < |list| ensures Produces(list[j]) !! Consumes(list[i]) {
      if list[j] == UpdateChoroplethCb {
        assert j == 1 || (field == Year && j == 0);
      }
    }
  }

  /** The position, in the loaded list of `field`, of a callback that redraws `view`. */
  function WitnessRedraw(field: Field, view: View): (i: nat)
    requires field in DependsOn(view)
    ensures i < |Listeners(LoadedCallbacks, field)| && view in Redraws(Listeners(LoadedCallbacks, field)[i])
  {
    match view
    case MapFillView => 1 - (if field == Year then 1 else 0)
    case LegendView => if field == Year then 2 else 3
    case InfoView => if field == Year then 1 else if field == FeatureKey then 1 else 2
    case MainTraceView => if field == FeatureKey then 2 else if field == Stat then 4 else 5
    case ExtraTracesView => if field == Stat then 4 else 5
    case GraphTitleView => 4
    case HighlightView => 0
    case SelectorView => 3
    case OpacityView => 0
  }

  /** After the start-up registrations, an update of the property class, the year or the
      statistic recomputes the classification before the legend reads it. */
  lemma LegendAfterChoropleth(field: Field, val: Value)
    requires field == PropertyClass || field == Year || field == Stat
    ensures var events := Dispatch(Listeners(LoadedCallbacks, field), val);
            Invoked(UpdateChoroplethCb, val) in events && Invoked(UpdateLegendCb, val) in events &&
            FirstIndex(events, Invoked(UpdateChoroplethCb, val)) < FirstIndex(events, Invoked(UpdateLegendCb, val))
  {
    var list := Listeners(LoadedCallbacks, field);
    var events := Dispatch(list, val);
    DispatchInOrder(list, val);
    var c := if field == Year then 0 else 1;
    var l := if field == Year then 2 else 3;
    assert events[c] == Invoked(UpdateChoroplethCb, val);
    assert events[l] == Invoked(UpdateLegendCb, val);
    var fc := FirstIndex(events, Invoked(UpdateChoroplethCb, val));
    var fl := FirstIndex(events, Invoked(UpdateLegendCb, val));
    assert fc <= c;
    assert list[fl] == UpdateLegendCb;
    assert fl >= l;
  }
}
