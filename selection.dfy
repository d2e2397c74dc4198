/** Selecting a neighbourhood: clicks on the layer and on the map, the neighbourhood selector,
    and the outline that marks the selected neighbourhood. */
module Selection {
  import opened Common
  import opened Statistics
  import opened StateStore

  /** A selection as the record's `featureKey` holds it: `null`, or a neighbourhood code. */
  function KeyValue(key: Option<string>): (v: Value)
    ensures v.NullValue? <==> key.None?
    ensures key.Some? ==> v == TextValue(key.value)
  {
    match key
    case None => NullValue
    case Some(k) => TextValue(k)
  }

  /** The record's current `featureKey` (`null` when the record has none). */
  function CurrentKey(state: map<Field, Value>): Value {
    if FeatureKey in state then state[FeatureKey] else NullValue
  }

  /** The selection after a click on the feature of neighbourhood `clicked`: the same
      neighbourhood clicked again is deselected, any other one becomes the selection. */
  function ClickTarget(current: Value, clicked: string): (r: Value)
    ensures r.NullValue? <==> current == TextValue(clicked)
    ensures !r.NullValue? ==> r == TextValue(clicked)
  {
    if current == TextValue(clicked) then NullValue else TextValue(clicked)
  }

  /** Two clicks in a row on the same feature give back the selection the first click would
      have made had it been the only one, and from no selection they give no selection. */
  lemma DoubleClickToggles(current: Value, clicked: string)
    ensures ClickTarget(ClickTarget(current, clicked), clicked) ==
            (if current == TextValue(clicked) then TextValue(clicked) else NullValue)
    ensures current.NullValue? ==> ClickTarget(ClickTarget(current, clicked), clicked).NullValue?
  {
  }

  /** After a click on a feature, that feature is selected exactly when it was not selected
      before; a click never selects any other feature. */
  lemma ClickSelectsOnlyClicked(current: Value, clicked: string, other: string)
    requires other != clicked
    ensures ClickTarget(current, clicked) != TextValue(other)
    ensures ClickTarget(current, clicked) == TextValue(clicked) <==> current != TextValue(clicked)
  {
  }

  /** A click on a feature of the layer: the record's `featureKey` becomes the click's
      target, and the featureKey callbacks run. */
  method OnFeatureClick(store: Store, clicked: string)
    modifies store`state, store`trace
    ensures store.state == old(store.state)[FeatureKey := ClickTarget(CurrentKey(old(store.state)), clicked)]
    ensures store.callbacks == old(store.callbacks)
    ensures store.trace == old(store.trace) +
              Dispatch(Listeners(store.callbacks, FeatureKey), ClickTarget(CurrentKey(old(store.state)), clicked))
  {
    store.UpdateState(FeatureKey, ClickTarget(CurrentKey(store.state), clicked));
  }

  /** A click on the map outside the layer: when a neighbourhood is selected it is
      deselected; otherwise nothing happens, and in particular no callback runs. */
  method OnMapClick(store: Store)
    modifies store`state, store`trace
    ensures store.callbacks == old(store.callbacks)
    ensures !CurrentKey(old(store.state)).NullValue? ==>
              store.state == old(store.state)[FeatureKey := NullValue] &&
              store.trace == old(store.trace) + Dispatch(Listeners(store.callbacks, FeatureKey), NullValue)
    ensures CurrentKey(old(store.state)).NullValue? ==>
              store.state == old(store.state) && store.trace == old(store.trace)
  {
    if !CurrentKey(store.state).NullValue? {
      store.UpdateState(FeatureKey, NullValue);
    }
  }

  /** The selection that an entry of the neighbourhood selector stands for. */
  function SelectToKey(option: string): (key: Option<string>)
    ensures key.None? <==> option == AllNeighborhoods
    ensures key.Some? ==> key.value == option
  {
    if option == AllNeighborhoods then None else Some(option)
  }

  /** The selector's entry that shows a selection. */
  function KeyToSelect(key: Option<string>): (option: string)
    ensures key.None? ==> option == AllNeighborhoods
    ensures key.Some? ==> option == key.value
  {
    match key
    case None => AllNeighborhoods
    case Some(k) => k
  }

  /** Every entry of the selector maps back to itself, so the selector never rewrites the
      entry the user has just chosen. */
  lemma SelectRoundTrip(option: string)
    ensures KeyToSelect(SelectToKey(option)) == option
  {
  }

  /** A selection survives the way there and back through the selector exactly when it is
      not a neighbourhood whose code is the "all neighbourhoods" entry itself. */
  lemma KeyRoundTrip(key: Option<string>)
    ensures SelectToKey(KeyToSelect(key)) == key <==> key != Some(AllNeighborhoods)
  {
  }

  /** The neighbourhood selector, reduced to the entry it shows. */
  class NeighborhoodSelect {
    var shown: string

    constructor ()
      ensures shown == AllNeighborhoods
    {
      shown := AllNeighborhoods;
    }

    /** The featureKey callback that keeps the selector in line with the record: the entry
        for the new selection is shown, and it is written only when it differs from the
        one shown. */
    method Sync(val: Value) returns (written: bool)
      requires val.NullValue? || val.TextValue?
      modifies this
      ensures shown == KeyToSelect(if val.NullValue? then None else Some(val.s))
      ensures written <==> old(shown) != shown
    {
      var newVal := if val.NullValue? then AllNeighborhoods else val.s;
      written := shown != newVal;
      if written {
        shown := newVal;
      }
    }

    /** A change of the selector by the user: the record's `featureKey` becomes the entry's
        selection, and the featureKey callbacks run. */
    method OnChange(store: Store, option: string)
      modifies this, store`state, store`trace
      ensures shown == option
      ensures store.state == old(store.state)[FeatureKey := KeyValue(SelectToKey(option))]
      ensures store.callbacks == old(store.callbacks)
      ensures store.trace == old(store.trace) +
                Dispatch(Listeners(store.callbacks, FeatureKey), KeyValue(SelectToKey(option)))
    {
      shown := option;
      store.UpdateState(FeatureKey, KeyValue(SelectToKey(option)));
    }
  }

  /** A neighbourhood's outline: its colour and its weight. */
  datatype Border = Border(color: string, weight: int)

  /** The outline of every neighbourhood that is not selected. */
  const DefaultBorder: Border := Border("#fff", 2)
  /** The outline of the selected neighbourhood. */
  const HighlightBorder: Border := Border("black", 5)

  /** The position of the selected neighbourhood's first feature, if it has one. */
  function HighlightedIndex(codes: seq<string>, key: Value): (r: Option<nat>)
    ensures r.Some? <==> key.TextValue? && key.s in codes
    ensures r.Some? ==> r.value < |codes| && codes[r.value] == key.s &&
                        forall k :: 0 <= k < r.value ==> codes[k] != key.s
  {
    if key.TextValue? && key.s in codes then Some(FirstIndex(codes, key.s)) else None
  }

  /** The outlines after the featureKey highlight callback. */
  function Outlines(codes: seq<string>, key: Value): (r: seq<Border>)
    ensures |r| == |codes|
  {
    seq(|codes|, i requires 0 <= i < |codes| =>
      if HighlightedIndex(codes, key) == Some(i) then HighlightBorder else DefaultBorder)
  }

  /** Exactly one outline is highlighted when some feature has the selected code, and none
      otherwise; the highlighted one belongs to the first such feature. */
  lemma OutlinesHighlightOne(codes: seq<string>, key: Value, i: nat, j: nat)
    requires i < j < |codes|
    ensures !(Outlines(codes, key)[i] == HighlightBorder && Outlines(codes, key)[j] == HighlightBorder)
    ensures (exists k :: 0 <= k < |codes| && Outlines(codes, key)[k] == HighlightBorder) <==>
            key.TextValue? && key.s in codes
    ensures Outlines(codes, key)[i] == HighlightBorder ==> codes[i] == key.s
  {
    var r := Outlines(codes, key);
    assert HighlightBorder != DefaultBorder;
    if key.TextValue? && key.s in codes {
      var h := HighlightedIndex(codes, key).value;
      assert r[h] == HighlightBorder;
    } else {
      assert HighlightedIndex(codes, key).None?;
      forall k | 0 <= k < |codes| ensures r[k] == DefaultBorder {
        assert HighlightedIndex(codes, key) != Some(k);
      }
    }
  }

  /** The featureKey highlight callback on the layer's features, whose neighbourhood codes
      are `codes`: every outline is reset, then the first feature of the selection, if any,
      is highlighted (and brought to the front, which is what `raised` reports). */
  method HighlightSelection(borders: array<Border>, codes: seq<string>, key: Value)
    returns (raised: Option<nat>)
    requires borders.Length == |codes|
    modifies borders
    ensures borders[..] == Outlines(codes, key)
    ensures raised == HighlightedIndex(codes, key)
  {
    for i := 0 to borders.Length
      invariant forall k :: 0 <= k < i ==> borders[k] == DefaultBorder
    {
      borders[i] := DefaultBorder;
    }
    raised := None;
    if !key.NullValue? {
      for i := 0 to borders.Length
        invariant forall k :: 0 <= k < i ==> !(key.TextValue? && codes[k] == key.s)
        invariant forall k :: 0 <= k < borders.Length ==> borders[k] == DefaultBorder
      {
        if key.TextValue? && codes[i] == key.s {
          borders[i] := HighlightBorder;
          raised := Some(i);
          break;
        }
      }
    }
    assert raised == HighlightedIndex(codes, key);
  }
}
