/** The info panel (`infoControl.update`): the value of every statistic for the selection (or
    for the whole county) in the selected year, and the link to the source-data query. */
module InfoPanel {
  import opened Common
  import opened Statistics

  /** The data the panel reads: the county-wide summary when nothing is selected, otherwise
      the selected neighbourhood's data, which may be missing. */
  function PanelData(key: Option<string>, summary: YearTable, byNbhd: Dataset): (r: Option<YearTable>)
    ensures key.None? ==> r == Some(summary)
    ensures key.Some? ==> (r.Some? <==> key.value in byNbhd)
    ensures key.Some? && r.Some? ==> r.value == byNbhd[key.value]
  {
    match key
    case None => Some(summary)
    case Some(k) => if k in byNbhd then Some(byNbhd[k]) else None
  }

  /** The value the panel displays for one statistic: `null` when the data or its year is
      missing, `undefined` when only the statistic is missing, else the number. */
  function StatLookup(data: Option<YearTable>, year: int, stat: string): (r: JsValue)
    ensures r.Null? <==> !(data.Some? && year in data.value)
    ensures r.Undefined? <==> data.Some? && year in data.value && stat !in data.value[year]
    ensures r.Num? ==> data.Some? && year in data.value && stat in data.value[year] &&
                       r.n == data.value[year][stat]
    ensures !r.NaN?
  {
    if data.Some? && year in data.value then StatValue(data.value[year], stat) else Null
  }

  /** The panel's statistic rows, in the order of the statistics: each statistic's caption and
      its displayed value. */
  method StatRows(data: Option<YearTable>, year: int, fmts: Formatters)
    returns (rows: seq<(string, string)>)
    ensures |rows| == |SaleStats|
    ensures forall i :: 0 <= i < |SaleStats| ==>
              rows[i].0 == SaleStats[i].1.caption &&
              rows[i].1 == Display(SaleStats[i].1, StatLookup(data, year, SaleStats[i].0), fmts)
  {
    rows := [];
    for i := 0 to |SaleStats|
      invariant |rows| == i
      invariant forall k :: 0 <= k < i ==>
                  rows[k] == (SaleStats[k].1.caption, Display(SaleStats[k].1, StatLookup(data, year, SaleStats[k].0), fmts))
    {
      var (stat, desc) := SaleStats[i];
      rows := rows + [(desc.caption, Display(desc, StatLookup(data, year, stat), fmts))];
    }
  }

  /** Without data for the selected year, every statistic reads "unknown". */
  lemma MissingYearAllUnknown(data: Option<YearTable>, year: int, fmts: Formatters, i: nat)
    requires !(data.Some? && year in data.value) && i < |SaleStats|
    ensures Display(SaleStats[i].1, StatLookup(data, year, SaleStats[i].0), fmts) == "unknown"
  {
  }

  /** A statistic present with a value other than 0 is shown by the statistic's formatter;
      a present 0 reads "unknown", just as a missing one does. */
  lemma PresentValueShown(table: YearTable, year: int, i: nat, fmts: Formatters)
    requires i < |SaleStats| && year in table && SaleStats[i].0 in table[year]
    ensures var v := table[year][SaleStats[i].0];
            Display(SaleStats[i].1, StatLookup(Some(table), year, SaleStats[i].0), fmts) ==
            (if v == 0 then "unknown" else FormatterOf(SaleStats[i].1, fmts)(v))
  {
  }

  /** The statistics of the panel all have different keys, so no row repeats another's
      lookup. */
  lemma StatKeysDistinct(i: nat, j: nat)
    requires i < j < |SaleStats|
    ensures SaleStats[i].0 != SaleStats[j].0
  {
  }

  /** The start of every source-data query, up to the year. */
  const QueryPrefix: string := "https://datacatalog.cookcountyil.gov/resource/wvhk-k5uv.json?$where=year="
  /** The end of every source-data query. */
  const QuerySuffix: string := "&$limit=1000000000"

  /** The condition that picks the property class's sales: the class's own filter when it
      has one, else the class codes that start with the class's code. */
  function ClassFilter(code: string, pc: PropertyClass): (r: string)
    ensures pc.queryFilter.Some? ==> r == pc.queryFilter.value
    ensures pc.queryFilter.None? ==> r == "starts_with(class, '" + code + "')"
  {
    match pc.queryFilter
    case Some(f) => f
    case None => "starts_with(class, '" + code + "')"
  }

  /** The condition that picks one neighbourhood's sales. */
  function NeighborhoodClause(key: string): string {
    " AND nbhd_code='" + key + "'"
  }

  /** The query the panel links to: the year, the class filter, the neighbourhood when one
      is selected, and the row limit. */
  function SourceQuery(year: int, code: string, pc: PropertyClass, key: Option<string>): (r: string)
    ensures QueryPrefix <= r
  {
    QueryPrefix + IntText(year) + " AND " + ClassFilter(code, pc)
      + (if key.Some? then NeighborhoodClause(key.value) else "")
      + QuerySuffix
  }

  /** Every query starts with the year and the class filter and ends with the row limit; in
      between is the neighbourhood clause when a neighbourhood is selected, and nothing
      otherwise. */
  lemma QueryShape(year: int, code: string, pc: PropertyClass, key: Option<string>)
    ensures var q := SourceQuery(year, code, pc, key);
            var head := QueryPrefix + IntText(year) + " AND " + ClassFilter(code, pc);
            |q| >= |head| + |QuerySuffix| &&
            q[..|head|] == head && q[|q| - |QuerySuffix|..] == QuerySuffix &&
            (key.None? ==> q == head + QuerySuffix) &&
            (key.Some? ==> q == head + NeighborhoodClause(key.value) + QuerySuffix)
  {
    var q := SourceQuery(year, code, pc, key);
    var head := QueryPrefix + IntText(year) + " AND " + ClassFilter(code, pc);
    var mid := if key.Some? then NeighborhoodClause(key.value) else "";
    assert q == head + mid + QuerySuffix;
    assert q[..|head|] == head;
    assert q[|q| - |QuerySuffix|..] == QuerySuffix;
  }

  /** The query for a selected neighbourhood is the county-wide one with the neighbourhood's
      clause inserted just before the row limit. */
  lemma SelectedQueryAddsClause(year: int, code: string, pc: PropertyClass, key: string)
    ensures var all := SourceQuery(year, code, pc, None);
            |all| >= |QuerySuffix| &&
            SourceQuery(year, code, pc, Some(key)) ==
              all[..|all| - |QuerySuffix|] + NeighborhoodClause(key) + QuerySuffix
  {
    var head := QueryPrefix + IntText(year) + " AND " + ClassFilter(code, pc);
    var all := SourceQuery(year, code, pc, None);
    assert all == head + QuerySuffix;
    assert all[..|all| - |QuerySuffix|] == head;
  }

  /** Class "0" is queried by its own filter; every other class by its code prefix. */
  lemma ClassFilters(code: string)
    requires code in PropertyClasses
    ensures code == "0" ==> ClassFilter(code, PropertyClasses[code]) == "(upper(class)='EX' OR upper(class)='RR')"
    ensures code != "0" ==> ClassFilter(code, PropertyClasses[code]) == "starts_with(class, '" + code + "')"
  {
  }
}
