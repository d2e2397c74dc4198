/** Statistic and property-class descriptors, the sales datasets, and how a statistic's
    value is read out of them and displayed. */
module Statistics {
  import opened Common

  /** An `Intl.NumberFormat` instance. How it renders a number is not modelled. */
  type Formatter = int -> string

  /** `numeric_display`: a falsy value (`undefined`, `null`, `NaN` and also 0) displays as
      "unknown"; every other value is rendered by the formatter. */
  function NumericDisplay(v: JsValue, format: Formatter): (r: string)
    ensures !Truthy(v) ==> r == "unknown"
    ensures Truthy(v) ==> r == format(v.n)
  {
    match v
    case Num(n) => if n == 0 then "unknown" else format(n)
    case _ => "unknown"
  }

  /** The two `Feature` variants: currency statistics and counts. */
  datatype StatKind = Currency | Count

  /** A statistic descriptor. Every descriptor parses with `numeric_value` and displays
      with `numeric_display`; only the formatter and the plot's hover format differ. */
  datatype StatDescriptor = StatDescriptor(caption: string, kind: StatKind)

  /** The d3 format string that the plot's hover template uses for the statistic. */
  function D3Format(kind: StatKind): string {
    match kind
    case Currency => ":$,"
    case Count => ":,"
  }

  /** The two number formatters: US dollars without cents, and grouped counts. */
  datatype Formatters = Formatters(usd: Formatter, count: Formatter)

  function FormatterOf(d: StatDescriptor, fmts: Formatters): Formatter {
    match d.kind
    case Currency => fmts.usd
    case Count => fmts.count
  }

  /** `statProps.display(v)`. */
  function Display(d: StatDescriptor, v: JsValue, fmts: Formatters): string {
    NumericDisplay(v, FormatterOf(d, fmts))
  }

  /** `numeric_value`, i.e. `parseFloat` on the integer data: a number parses to itself and
      `undefined`, `null` or `NaN` parse to `NaN`. */
  function ParseNumber(v: JsValue): (r: JsValue)
    ensures r.Num? || r.NaN?
    ensures r.Num? <==> v.Num?
    ensures v.Num? ==> r.n == v.n
  {
    match v
    case Num(n) => Num(n)
    case _ => NaN
  }

  /** The statistics in the order the info panel and the selector list them. */
  const SaleStats: seq<(string, StatDescriptor)> := [
    ("mean", StatDescriptor("Average Sale Price", Currency)),
    ("median", StatDescriptor("Median Sale Price", Currency)),
    ("min", StatDescriptor("Minimum Sale Price", Currency)),
    ("max", StatDescriptor("Maximum Sale Price", Currency)),
    ("count", StatDescriptor("Number of Sales", Count))
  ]

  /** A property-class descriptor; `queryFilter` overrides the prefix filter of the
      source-data query. */
  datatype PropertyClass = PropertyClass(name: string, desc: string, queryFilter: Option<string>)

  const PropertyClasses: map<string, PropertyClass> := map[
    "0" := PropertyClass("Major Class 0", "Exempt and Railroad", Some("(upper(class)='EX' OR upper(class)='RR')")),
    "1" := PropertyClass("Major Class 1", "Vacant", None),
    "2" := PropertyClass("Major Class 2", "Residential", None),
    "3" := PropertyClass("Major Class 3", "Multi-Family", None),
    "4" := PropertyClass("Major Class 4", "Not-For-Profit", None),
    "5" := PropertyClass("Major Class 5", "Commercial/Industrial", None),
    "6" := PropertyClass("Major Class 6", "Industrial Incentive", None),
    "7" := PropertyClass("Major Class 7", "Commercial Incentive", None),
    "8" := PropertyClass("Major Class 8", "Commercial/Industrial Incentive", None),
    "9" := PropertyClass("Major Class 9", "Class 3 Multi-Family Residential Real Estate Incentive", None)
  ]

  /** The selectors' entry for the county as a whole, which stands for "no neighbourhood
      selected". */
  const AllNeighborhoods: string := "All Assessor Neighborhoods"

  const InitialPropertyClass: string := "2"
  const InitialStat: string := "mean"

  /** Statistic key to value, for one area and one year. */
  type StatTable = map<string, int>
  /** Year to statistics, for one area (or for the whole county). */
  type YearTable = map<int, StatTable>
  /** Neighbourhood code to its yearly statistics. */
  type Dataset = map<string, YearTable>

  /** `table[stat]`: `undefined` when the statistic is missing. */
  function StatValue(table: StatTable, stat: string): JsValue {
    if stat in table then Num(table[stat]) else Undefined
  }

  /** `getFeatureValue`: the feature's value for the selected year and statistic, read from
      the neighbourhood dataset and parsed; a missing neighbourhood, year or statistic gives
      `NaN`, never 0. */
  function GetFeatureValue(code: string, data: Dataset, year: int, stat: string): (r: JsValue)
    ensures r.Num? <==> code in data && year in data[code] && stat in data[code][year]
    ensures r.Num? ==> r.n == data[code][year][stat]
    ensures !r.Num? ==> r == NaN
  {
    var raw := if code in data && year in data[code] then StatValue(data[code][year], stat) else Null;
    ParseNumber(raw)
  }
}
