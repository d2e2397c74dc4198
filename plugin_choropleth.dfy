/** The choropleth layer plugin (`L.choropleth`): option defaults, the colour list, and the
    style of every feature, merged with the caller's own style. */
module PluginChoropleth {
  import opened Common
  import opened Classifier
  import opened Buckets

  /** A feature's properties. */
  type Properties = map<string, JsValue>

  /** How a feature's value is found: by a property name, or by a function of the feature. */
  datatype ValueProperty = PropertyName(name: string) | Getter(get: Properties -> JsValue)

  /** The feature's value; a missing property is `undefined`. */
  function FeatureValue(vp: ValueProperty, props: Properties): (r: JsValue)
    ensures vp.PropertyName? && vp.name !in props ==> r.Undefined?
    ensures vp.PropertyName? && vp.name in props ==> r == props[vp.name]
    ensures vp.Getter? ==> r == vp.get(props)
  {
    match vp
    case PropertyName(name) => if name in props then props[name] else Undefined
    case Getter(get) => get(props)
  }

  /** A value in a style object. */
  datatype StyleValue = ColorValue(color: Color) | NullValue | Text(s: string) | Number(n: int)

  /** A style object: option name to value. */
  type Style = map<string, StyleValue>

  /** The style the caller passed: a function of the feature, an object, or nothing usable
      (absent, or of another type). */
  datatype UserStyle = NoStyle | StyleObject(style: Style) | StyleFunction(f: Properties -> Style)

  /** The caller's style for one feature. */
  function UserStyleFor(user: UserStyle, props: Properties): Style {
    match user
    case NoStyle => map[]
    case StyleObject(s) => s
    case StyleFunction(f) => f(props)
  }

  /** The value an option takes once the defaults are applied: the caller's own value when
      there is one, else the default. */
  function WithDefault<T>(given: Option<T>, default: T): (r: T)
    ensures given.Some? ==> r == given.value
    ensures given.None? ==> r == default
  {
    match given
    case Some(v) => v
    case None => default
  }

  const DefaultValueProperty: ValueProperty := PropertyName("value")
  const DefaultScale: seq<string> := ["white", "red"]
  const DefaultSteps: int := 5
  const DefaultMode: string := "q"

  /** The options object, which the plugin changes in place; `None` is an option the caller
      left out. */
  class ChoroplethOptions {
    var valueProperty: Option<ValueProperty>
    var scale: Option<seq<string>>
    var steps: Option<int>
    var mode: Option<string>
    var colors: Option<seq<Color>>
    var limits: Option<seq<int>>
    /** The style the caller passed. The options object's own `style` option is this until
        `_.extend` replaces it by the plugin's style function, which `styleReplaced` records. */
    var userStyle: UserStyle
    /** Whether the `style` option has been replaced by the plugin's own style function. */
    var styleReplaced: bool

    constructor (valueProperty: Option<ValueProperty>, scale: Option<seq<string>>, steps: Option<int>,
                 mode: Option<string>, colors: Option<seq<Color>>, style: UserStyle)
      ensures this.valueProperty == valueProperty && this.scale == scale && this.steps == steps
      ensures this.mode == mode && this.colors == colors && this.userStyle == style
      ensures limits == None && !styleReplaced
    {
      this.valueProperty := valueProperty;
      this.scale := scale;
      this.steps := steps;
      this.mode := mode;
      this.colors := colors;
      this.userStyle := style;
      limits := None;
      styleReplaced := false;
    }

    /** `_.defaults`: each of the four options the caller left out takes its default; every
        option the caller gave is kept. */
    method ApplyDefaults()
      modifies this
      ensures valueProperty == Some(WithDefault(old(valueProperty), DefaultValueProperty))
      ensures scale == Some(WithDefault(old(scale), DefaultScale))
      ensures steps == Some(WithDefault(old(steps), DefaultSteps))
      ensures mode == Some(WithDefault(old(mode), DefaultMode))
      ensures colors == old(colors) && limits == old(limits)
      ensures userStyle == old(userStyle) && styleReplaced == old(styleReplaced)
    {
      if valueProperty.None? { valueProperty := Some(DefaultValueProperty); }
      if scale.None? { scale := Some(DefaultScale); }
      if steps.None? { steps := Some(DefaultSteps); }
      if mode.None? { mode := Some(DefaultMode); }
    }

    /** `_.extend`: the limits, the colours and the plugin's style function overwrite the
        options of those names. */
    method Extend(newLimits: seq<int>, newColors: seq<Color>)
      modifies this
      ensures limits == Some(newLimits) && colors == Some(newColors) && styleReplaced
      ensures valueProperty == old(valueProperty) && scale == old(scale)
      ensures steps == old(steps) && mode == old(mode) && userStyle == old(userStyle)
    {
      limits := Some(newLimits);
      colors := Some(newColors);
      styleReplaced := true;
    }
  }

  /** The colour list: the caller's colours when there is exactly one per limit, else one
      fewer sample of the scale than there are limits (none for no limit). */
  function SelectColors(given: Option<seq<Color>>, limits: seq<int>, scale: seq<string>): (r: seq<Color>)
    ensures given.Some? && |given.value| == |limits| ==> r == given.value
    ensures !(given.Some? && |given.value| == |limits|) ==>
              r == ScaleColors(scale, if |limits| == 0 then 0 else |limits| - 1)
    ensures |r| + 1 >= |limits|
  {
    if given.Some? && |given.value| == |limits| then given.value
    else ScaleColors(scale, if |limits| == 0 then 0 else |limits| - 1)
  }

  /** The caller's colours are never used with a length other than the number of limits. */
  lemma GivenColorsNeedOnePerLimit(given: seq<Color>, limits: seq<int>, scale: seq<string>)
    requires |given| != |limits| && |limits| > 0
    ensures |SelectColors(Some(given), limits, scale)| == |limits| - 1
    ensures SelectColors(Some(given), limits, scale) == ScaleColors(scale, |limits| - 1)
  {
  }

  /** A feature's fill colour as the style function leaves it: not set, set to `null`, or
      set to a colour. */
  datatype Fill = Unset | NullFill | ColorFill(color: Color)

  /** The fill: `null` for a value `isNaN` rejects; else the colour of the first `i` with
      `value <= limits[i+1]`; else no fill at all. `null` passes `isNaN` and compares as 0. */
  function PluginFill(v: JsValue, limits: seq<int>, colors: seq<Color>): (r: Fill)
    requires |colors| + 1 >= |limits|
    ensures r.NullFill? <==> IsNaN(v)
    ensures r.ColorFill? ==> r.color in colors
  {
    if IsNaN(v) then NullFill
    else match FirstAtMost(ToNumber(v), limits, 0)
      case Some(i) => ColorFill(colors[i])
      case None => Unset
  }

  /** The bucket search of the style function, with its early exit. */
  method StyleFill(v: JsValue, limits: seq<int>, colors: seq<Color>) returns (fill: Fill)
    requires |colors| + 1 >= |limits|
    ensures fill == PluginFill(v, limits, colors)
  {
    if !IsNaN(v) {
      var n := ToNumber(v);
      fill := Unset;
      var i := 0;
      while i < |limits| - 1
        invariant 0 <= i <= |limits| || |limits| == 0
        invariant fill == Unset
        invariant forall k :: 0 < k <= i && k < |limits| ==> n > limits[k]
        decreases |limits| - i
      {
        if n <= limits[i + 1] {
          fill := ColorFill(colors[i]);
          FirstMatchIsFirstAtMost(n, limits, i);
          break;
        }
        i := i + 1;
      }
      if fill.Unset? {
        assert FirstAtMost(n, limits, 0).None?;
      }
    } else {
      fill := NullFill;
    }
  }

  /** The first `i` with `v <= limits[i+1]` is what `FirstAtMost` finds. */
  lemma FirstMatchIsFirstAtMost(v: int, limits: seq<int>, i: nat)
    requires i < |limits| - 1 && v <= limits[i + 1]
    requires forall k :: 0 < k <= i ==> v > limits[k]
    ensures FirstAtMost(v, limits, 0) == Some(i)
  {
    var r := FirstAtMost(v, limits, 0);
    assert r.Some? ==> (v > limits[r.value + 1] || r.value + 1 > i);
    assert r.Some? ==> (v > limits[i + 1] || i + 1 > r.value);
  }

  /** The style of one feature: the computed fill, with the caller's style filling in every
      option the fill does not set. */
  function FillStyle(fill: Fill): (s: Style)
    ensures fill.Unset? <==> "fillColor" !in s
    ensures fill.NullFill? ==> s["fillColor"] == NullValue
    ensures fill.ColorFill? ==> s["fillColor"] == ColorValue(fill.color)
  {
    match fill
    case Unset => map[]
    case NullFill => map["fillColor" := NullValue]
    case ColorFill(c) => map["fillColor" := ColorValue(c)]
  }

  /** `_.defaults(style, user)`: the keys of both, each with the style's value when the style
      has one and the user's otherwise. */
  function Defaults(style: Style, user: Style): (r: Style)
    ensures r.Keys == style.Keys + user.Keys
    ensures forall k :: k in style ==> r[k] == style[k]
    ensures forall k :: k in user && k !in style ==> r[k] == user[k]
  {
    map k | k in style.Keys + user.Keys :: if k in style then style[k] else user[k]
  }

  /** `L.choropleth(geojson, opts)`: applies the defaults, computes the limits and the
      colours, stores them in the options together with the plugin's style function, and
      returns the style of every feature. */
  method Choropleth(features: seq<Properties>, opts: ChoroplethOptions, chromaLimits: LimitsFunction)
    returns (styles: seq<Style>)
    modifies opts
    ensures var vp := WithDefault(old(opts.valueProperty), DefaultValueProperty);
            var values := seq(|features|, i requires 0 <= i < |features| => FeatureValue(vp, features[i]));
            var limits := chromaLimits(values, WithDefault(old(opts.mode), DefaultMode),
                                       WithDefault(old(opts.steps), DefaultSteps));
            var colors := SelectColors(old(opts.colors), limits, WithDefault(old(opts.scale), DefaultScale));
            opts.limits == Some(limits) && opts.colors == Some(colors) &&
            |styles| == |features| &&
            forall i :: 0 <= i < |features| ==>
              styles[i] == Defaults(FillStyle(PluginFill(values[i], limits, colors)),
                                    UserStyleFor(old(opts.userStyle), features[i]))
    ensures opts.valueProperty == Some(WithDefault(old(opts.valueProperty), DefaultValueProperty))
    ensures opts.scale == Some(WithDefault(old(opts.scale), DefaultScale))
    ensures opts.steps == Some(WithDefault(old(opts.steps), DefaultSteps))
    ensures opts.mode == Some(WithDefault(old(opts.mode), DefaultMode))
    ensures opts.userStyle == old(opts.userStyle) && opts.styleReplaced
  {
    opts.ApplyDefaults();
    var user := opts.userStyle;
    var vp := opts.valueProperty.value;
    var values := seq(|features|, i requires 0 <= i < |features| => FeatureValue(vp, features[i]));
    var limits := chromaLimits(values, opts.mode.value, opts.steps.value);
    var colors := SelectColors(opts.colors, limits, opts.scale.value);
    opts.Extend(limits, colors);
    styles := [];
    for i := 0 to |features|
      modifies {}
      invariant |styles| == i
      invariant forall k :: 0 <= k < i ==>
                  styles[k] == Defaults(FillStyle(PluginFill(values[k], limits, colors)),
                                        UserStyleFor(user, features[k]))
    {
      var fill := StyleFill(values[i], limits, colors);
      styles := styles + [Defaults(FillStyle(fill), UserStyleFor(user, features[i]))];
    }
  }

  /** A value `isNaN` rejects is always filled with `null`. */
  lemma NaNFillsNull(v: JsValue, limits: seq<int>, colors: seq<Color>)
    requires |colors| + 1 >= |limits| && IsNaN(v)
    ensures PluginFill(v, limits, colors) == NullFill
  {
  }

  /** The fill is a colour exactly when some `limits[i+1]` is at least the value, and then
      the colour of the first such `i`. */
  lemma PluginFillIsFirstMatch(v: JsValue, limits: seq<int>, colors: seq<Color>, i: nat)
    requires |colors| + 1 >= |limits| && !IsNaN(v)
    ensures PluginFill(v, limits, colors).ColorFill? <==>
              exists k :: 0 < k < |limits| && ToNumber(v) <= limits[k]
    ensures i < |limits| - 1 && ToNumber(v) <= limits[i + 1] &&
            (forall k :: 0 < k <= i ==> ToNumber(v) > limits[k]) ==>
              PluginFill(v, limits, colors) == ColorFill(colors[i])
  {
    var n := ToNumber(v);
    var r := FirstAtMost(n, limits, 0);
    if r.Some? {
      assert n <= limits[r.value + 1];
    }
    if i < |limits| - 1 && n <= limits[i + 1] && (forall k :: 0 < k <= i ==> n > limits[k]) {
      FirstMatchIsFirstAtMost(n, limits, i);
    }
  }

  /** A number above every limit after the first is left without a fill, which differs from
      the explicit `null` fill of a value `isNaN` rejects. */
  lemma AboveLimitsUnset(v: int, limits: seq<int>, colors: seq<Color>)
    requires |colors| + 1 >= |limits|
    requires forall k :: 0 < k < |limits| ==> v > limits[k]
    ensures PluginFill(Num(v), limits, colors) == Unset
    ensures PluginFill(Num(v), limits, colors) != PluginFill(NaN, limits, colors)
  {
  }

  /** There is no single-limit case: with at most one limit, no value gets a colour. */
  lemma NoSingleLimitCase(v: JsValue, limits: seq<int>, colors: seq<Color>)
    requires |colors| + 1 >= |limits| && |limits| <= 1
    ensures !PluginFill(v, limits, colors).ColorFill?
  {
  }

  /** With two or more limits, the plugin colours a number exactly as the map's own fill
      rule does. */
  lemma AgreesWithMapFill(v: int, limits: seq<int>, colors: seq<Color>)
    requires |limits| >= 2 && WellFormed(limits, colors)
    ensures PluginFill(Num(v), limits, colors).ColorFill? <==> FillColor(Num(v), limits, colors).Some?
    ensures PluginFill(Num(v), limits, colors).ColorFill? ==>
              PluginFill(Num(v), limits, colors).color == FillColor(Num(v), limits, colors).value
  {
  }

  /** The map's fill rule and the plugin's part ways on a single limit: every value up to it
      is coloured by the map and left unfilled by the plugin. */
  lemma SingleLimitDiverges(v: int, limits: seq<int>, colors: seq<Color>)
    requires |limits| == 1 && WellFormed(limits, colors) && v <= limits[0]
    ensures FillColor(Num(v), limits, colors) == Some(colors[0])
    ensures PluginFill(Num(v), limits, colors) == Unset
  {
  }

  /** The two part ways on `null` as well: the map never fills it, while the plugin colours
      it as the number 0. */
  lemma NullDiverges(limits: seq<int>, colors: seq<Color>)
    requires WellFormed(limits, colors)
    ensures FillColor(Null, limits, colors).None?
    ensures PluginFill(Null, limits, colors) == PluginFill(Num(0), limits, colors)
  {
  }

  /** The caller's style never overrides a computed fill, `null` included; only a feature
      left without a fill takes the caller's `fillColor`. Every other option of the caller's
      style is kept as it is. */
  lemma UserStyleNeverOverridesFill(fill: Fill, user: Style)
    ensures fill.NullFill? ==> Defaults(FillStyle(fill), user)["fillColor"] == NullValue
    ensures fill.ColorFill? ==> Defaults(FillStyle(fill), user)["fillColor"] == ColorValue(fill.color)
    ensures fill.Unset? ==> ("fillColor" in Defaults(FillStyle(fill), user) <==> "fillColor" in user)
    ensures fill.Unset? && "fillColor" in user ==>
              Defaults(FillStyle(fill), user)["fillColor"] == user["fillColor"]
    ensures forall k :: k in user && k != "fillColor" ==> Defaults(FillStyle(fill), user)[k] == user[k]
  {
  }
}
