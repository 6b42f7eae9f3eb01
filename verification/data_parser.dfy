/** The semicolon-separated text parser of the dashboard and its query
    helpers (`src/utils/dataParser.ts`): country lookup, distinct value
    lists, AND-of-equalities filtering and per-country summation. */
module DataParser {
  import opened Js
  import opened Text
  import opened Seqs

  /** One parsed row, the `KPIData` interface. The text fields after the
      first are `None` when the header has fewer columns than the field's
      position, where JavaScript reads `values[i]` as `undefined`. */
  datatype KpiData = KpiData(
    battAlias: string,
    country: Cell,
    continent: Cell,
    climate: Cell,
    iso_a3: string,
    model_series: Cell,
    variable: Cell,
    value: int,
    description: Cell,
    count: int)

  // ----- parseData -----

  /** `values[i]`: the i-th field, or `undefined` past the end. */
  function FieldAt(values: seq<string>, i: nat): Cell
  {
    if i < |values| then Some(values[i]) else None
  }

  /** `parseInt(cell, 10) || 0`. An absent cell is the text `"undefined"`,
      which holds no digits. */
  function IntOrZero(c: Cell): int
  {
    if c.None? then 0
    else match ParseInt(c.value)
      case Some(v) => v
      case None => 0
  }

  /** `values[4] ? values[4].toUpperCase().trim() : ''`. */
  function IsoField(c: Cell): string
  {
    if Present(c) then UpperTrim(c.value) else ""
  }

  /** The record built from the fields of one accepted line: positions 0 to
      9 are battAlias, country, continent, climate, iso_a3, model_series,
      variable, value, description and count. */
  function ToRecord(values: seq<string>): (r: KpiData)
    requires |values| >= 1
    ensures r.battAlias == values[0]
    ensures r.country == FieldAt(values, 1) && r.continent == FieldAt(values, 2)
    ensures r.climate == FieldAt(values, 3) && r.model_series == FieldAt(values, 5)
    ensures r.variable == FieldAt(values, 6) && r.description == FieldAt(values, 8)
    ensures IsCanonical(r.iso_a3)
    ensures !Present(FieldAt(values, 4)) ==> r.iso_a3 == ""
    ensures Present(FieldAt(values, 4)) ==> r.iso_a3 == Upper(Trim(values[4]))
    ensures Present(FieldAt(values, 4)) && IsCanonical(values[4]) ==> r.iso_a3 == values[4]
    ensures |values| > 7 && ParseInt(values[7]).Some? ==> r.value == ParseInt(values[7]).value
    ensures (|values| <= 7 || ParseInt(values[7]).None?) ==> r.value == 0
    ensures |values| > 9 && ParseInt(values[9]).Some? ==> r.count == ParseInt(values[9]).value
    ensures (|values| <= 9 || ParseInt(values[9]).None?) ==> r.count == 0
  {
    KpiData(
      values[0],
      FieldAt(values, 1),
      FieldAt(values, 2),
      FieldAt(values, 3),
      IsoField(FieldAt(values, 4)),
      FieldAt(values, 5),
      FieldAt(values, 6),
      IntOrZero(FieldAt(values, 7)),
      FieldAt(values, 8),
      IntOrZero(FieldAt(values, 9)))
  }

  /** A data line yields a record iff it is not blank after trimming and has
      as many `;`-fields as the header. */
  predicate Accepted(headerLength: nat, line: string)
  {
    Trim(line) != "" && |Split(Trim(line), ';')| == headerLength
  }

  function Acceptor(headerLength: nat): string -> bool
  {
    (line: string) => Accepted(headerLength, line)
  }

  /** The record of an accepted line. */
  function LineRecord(line: string): KpiData
  {
    ToRecord(Split(Trim(line), ';'))
  }

  /** The body of the loop for one raw line: skip it when blank after
      trimming, skip it when its field count differs from the header's,
      otherwise yield its record. The contract is the loop body's case
      table; what it adds up to is stated by `ParseData` and
      `ParseDataLines`. */
  function LineStep(headerLength: nat, raw: string): (r: seq<KpiData>)
    ensures Accepted(headerLength, raw) ==> r == [LineRecord(raw)]
    ensures !Accepted(headerLength, raw) ==> r == []
  {
    var line := Trim(raw);
    if line == "" then []
    else
      var values := Split(line, ';');
      if |values| != headerLength then []
      else [ToRecord(values)]
  }

  /** The loop of `parseData` over the data lines: the records of the
      accepted lines, in order. */
  function ParseLines(headerLength: nat, lines: seq<string>): (r: seq<KpiData>)
    ensures r == Map(Filter(lines, Acceptor(headerLength)), LineRecord)
  {
    if |lines| == 0 then []
    else
      var prefix := lines[..|lines| - 1];
      var raw := lines[|lines| - 1];
      assert lines == prefix + [raw];
      ParseLinesStep(headerLength, prefix, raw);
      ParseLines(headerLength, prefix) + LineStep(headerLength, raw)
  }

  lemma ParseLinesStep(headerLength: nat, prefix: seq<string>, raw: string)
    ensures Map(Filter(prefix + [raw], Acceptor(headerLength)), LineRecord)
         == Map(Filter(prefix, Acceptor(headerLength)), LineRecord)
            + (if Accepted(headerLength, raw) then [LineRecord(raw)] else [])
  {
    FilterSnoc(prefix, raw, Acceptor(headerLength));
    if Accepted(headerLength, raw) {
      MapSnoc(Filter(prefix, Acceptor(headerLength)), raw, LineRecord);
    }
  }

  /** The lines of the text, split on `\n`. */
  function Lines(csvText: string): (lines: seq<string>)
    ensures |lines| >= 1
  {
    Split(csvText, '\n')
  }

  /** The number of `;`-fields of the header line. */
  function HeaderLength(csvText: string): nat
  {
    |Split(Lines(csvText)[0], ';')|
  }

  /** `parseData(csvText)`: one record per accepted data line, in input
      order, built by position; the header line yields nothing. */
  function ParseData(csvText: string): (r: seq<KpiData>)
    ensures |r| <= |Lines(csvText)| - 1
    ensures r == Map(Filter(Lines(csvText)[1..], Acceptor(HeaderLength(csvText))), LineRecord)
  {
    ParseLines(HeaderLength(csvText), Lines(csvText)[1..])
  }

  /** Every record of `parseData` comes from an accepted data line, records
      keep the order of their lines, and a line is dropped iff it is blank
      after trimming or its field count differs from the header's. */
  lemma ParseDataLines(csvText: string)
    ensures var kept := Filter(Lines(csvText)[1..], Acceptor(HeaderLength(csvText)));
      && IsSubseq(kept, Lines(csvText)[1..])
      && |ParseData(csvText)| == |kept|
      && (forall j :: 0 <= j < |kept| ==>
            && Trim(kept[j]) != ""
            && |Split(Trim(kept[j]), ';')| == HeaderLength(csvText)
            && ParseData(csvText)[j] == ToRecord(Split(Trim(kept[j]), ';')))
      && (forall i :: 1 <= i < |Lines(csvText)| && Accepted(HeaderLength(csvText), Lines(csvText)[i])
            ==> Lines(csvText)[i] in kept)
  {
    var lines := Lines(csvText)[1..];
    var kept := Filter(lines, Acceptor(HeaderLength(csvText)));
    assert forall i :: 1 <= i < |Lines(csvText)| ==> Lines(csvText)[i] == lines[i - 1];
  }

  // ----- getCountryData -----

  function IsoIs(code: string): KpiData -> bool
  {
    (item: KpiData) => item.iso_a3 == code
  }

  /** `getCountryData`: exactly the records whose code equals `code`, in
      their original order. */
  function GetCountryData(data: seq<KpiData>, code: string): (r: seq<KpiData>)
    ensures IsSubseq(r, data)
    ensures forall i :: 0 <= i < |r| ==> r[i].iso_a3 == code
    ensures forall i :: 0 <= i < |data| && data[i].iso_a3 == code ==> data[i] in r
    ensures |r| == Count(data, IsoIs(code))
  {
    Filter(data, IsoIs(code))
  }

  // ----- distinct value lists -----

  function VariableOf(item: KpiData): Cell { item.variable }
  function BattAliasOf(item: KpiData): string { item.battAlias }
  function ContinentOf(item: KpiData): Cell { item.continent }
  function ClimateOf(item: KpiData): Cell { item.climate }
  function ModelSeriesOf(item: KpiData): Cell { item.model_series }

  function TextOf(c: Cell): string
  {
    if c.Some? then c.value else ""
  }

  /** `cells.filter(c => c)`: the present, non-empty texts in order. */
  function PresentTexts(cells: seq<Cell>): (r: seq<string>)
    ensures forall i :: 0 <= i < |r| ==> r[i] != "" && Some(r[i]) in cells
    ensures forall i :: 0 <= i < |cells| && Present(cells[i]) ==> cells[i].value in r
  {
    var present := Filter(cells, Present);
    var r := Map(present, TextOf);
    assert forall i :: 0 <= i < |r| ==> Some(r[i]) == present[i];
    assert forall i :: 0 <= i < |cells| && Present(cells[i]) ==> cells[i].value in r by {
      forall i | 0 <= i < |cells| && Present(cells[i])
        ensures cells[i].value in r
      {
        var j :| 0 <= j < |present| && present[j] == cells[i];
        assert r[j] == cells[i].value;
      }
    }
    r
  }

  /** `getUniqueVariables`: `[...new Set(data.map(d => d.var))]`, every
      variable of the data once, in order of first occurrence. */
  function GetUniqueVariables(data: seq<KpiData>): (r: seq<Cell>)
    ensures FirstOccurrences(r, Map(data, VariableOf))
  {
    Distinct(Map(data, VariableOf))
  }

  /** `getUniqueBatteryAliases`: every battery alias once, in order of first
      occurrence. */
  function GetUniqueBatteryAliases(data: seq<KpiData>): (r: seq<string>)
    ensures FirstOccurrences(r, Map(data, BattAliasOf))
  {
    Distinct(Map(data, BattAliasOf))
  }

  /** `getUniqueContinents`: the truthy continents, each once, in order of
      first occurrence. */
  function GetUniqueContinents(data: seq<KpiData>): (r: seq<string>)
    ensures FirstOccurrences(r, PresentTexts(Map(data, ContinentOf)))
  {
    Distinct(PresentTexts(Map(data, ContinentOf)))
  }

  /** `getUniqueClimateTypes`: the truthy climates, each once, in order of
      first occurrence. */
  function GetUniqueClimateTypes(data: seq<KpiData>): (r: seq<string>)
    ensures FirstOccurrences(r, PresentTexts(Map(data, ClimateOf)))
  {
    Distinct(PresentTexts(Map(data, ClimateOf)))
  }

  /** `getUniqueModelSeries`: the truthy model series, each once, in order
      of first occurrence. */
  function GetUniqueModelSeries(data: seq<KpiData>): (r: seq<string>)
    ensures FirstOccurrences(r, PresentTexts(Map(data, ModelSeriesOf)))
  {
    Distinct(PresentTexts(Map(data, ModelSeriesOf)))
  }

  /** The continent list holds exactly the truthy continents of the rows. */
  lemma UniqueContinentsMembership(data: seq<KpiData>)
    ensures forall j :: 0 <= j < |data| && Present(data[j].continent) ==> data[j].continent.value in GetUniqueContinents(data)
    ensures forall x :: x in GetUniqueContinents(data) ==> x != "" && exists j :: 0 <= j < |data| && data[j].continent == Some(x)
  {
    var cells := Map(data, ContinentOf);
    var r := GetUniqueContinents(data);
    forall x | x in r
      ensures x != "" && exists j :: 0 <= j < |data| && data[j].continent == Some(x)
    {
      var j :| 0 <= j < |cells| && cells[j] == Some(x);
      assert data[j].continent == Some(x);
    }
    forall j | 0 <= j < |data| && Present(data[j].continent)
      ensures data[j].continent.value in r
    {
      assert cells[j] == data[j].continent;
    }
  }

  // ----- getFilteredData -----

  /** The filter object of `getFilteredData`: a required variable and four
      optional fields, where `None` is an omitted property. */
  datatype Filters = Filters(
    variable: string,
    battAlias: Option<string>,
    continent: Option<string>,
    climate: Option<string>,
    model_series: Option<string>)

  /** A record passes the filter: its variable equals the required one, and
      it equals every optional filter value that is non-empty. */
  predicate Keeps(f: Filters, item: KpiData)
  {
    && item.variable == Some(f.variable)
    && (Present(f.battAlias) ==> item.battAlias == f.battAlias.value)
    && (Present(f.continent) ==> item.continent == f.continent)
    && (Present(f.climate) ==> item.climate == f.climate)
    && (Present(f.model_series) ==> item.model_series == f.model_series)
  }

  function Matcher(f: Filters): KpiData -> bool
  {
    (item: KpiData) => Keeps(f, item)
  }

  /** `getFilteredData`: the records passing the filter, in their original
      order, none left out. */
  function GetFilteredData(data: seq<KpiData>, f: Filters): (r: seq<KpiData>)
    ensures IsSubseq(r, data)
    ensures forall i :: 0 <= i < |r| ==> Keeps(f, r[i])
    ensures forall i :: 0 <= i < |data| && Keeps(f, data[i]) ==> data[i] in r
    ensures |r| == Count(data, Matcher(f))
  {
    Filter(data, Matcher(f))
  }

  /** Applying the filter twice is applying it once. */
  lemma GetFilteredDataIdempotent(data: seq<KpiData>, f: Filters)
    ensures GetFilteredData(GetFilteredData(data, f), f) == GetFilteredData(data, f)
  {
    FilterIdempotent(data, Matcher(f));
  }

  /** The same filter with every empty optional value dropped. */
  function Normalize(f: Filters): Filters
  {
    Filters(
      f.variable,
      if Present(f.battAlias) then f.battAlias else None,
      if Present(f.continent) then f.continent else None,
      if Present(f.climate) then f.climate else None,
      if Present(f.model_series) then f.model_series else None)
  }

  /** An empty optional filter value constrains nothing: it behaves exactly
      like an omitted one. */
  lemma EmptyFilterValuesIgnored(data: seq<KpiData>, f: Filters)
    ensures GetFilteredData(data, f) == GetFilteredData(data, Normalize(f))
  {
    FilterExt(data, Matcher(f), Matcher(Normalize(f)));
  }

  /** With no optional filters, only the variable selects. */
  lemma VariableOnlyFilter(data: seq<KpiData>, variable: string)
    ensures var r := GetFilteredData(data, Filters(variable, None, None, None, None));
      && (forall i :: 0 <= i < |r| ==> r[i].variable == Some(variable))
      && (forall i :: 0 <= i < |data| && data[i].variable == Some(variable) ==> data[i] in r)
  {
  }

  // ----- getAggregatedDataByCountry -----

  /** The optional second argument of `getAggregatedDataByCountry`. */
  datatype OptionalFilters = OptionalFilters(
    battAlias: Option<string>,
    continent: Option<string>,
    climate: Option<string>,
    model_series: Option<string>)

  /** The `getFilteredData` filter that selects the same rows. */
  function AsFilters(variable: string, filters: Option<OptionalFilters>): Filters
  {
    match filters
    case None => Filters(variable, None, None, None, None)
    case Some(o) => Filters(variable, o.battAlias, o.continent, o.climate, o.model_series)
  }

  function VariableIs(variable: string): KpiData -> bool
  {
    (item: KpiData) => item.variable == Some(variable)
  }

  function BattAliasIs(a: string): KpiData -> bool
  {
    (item: KpiData) => item.battAlias == a
  }

  function ContinentIs(v: string): KpiData -> bool
  {
    (item: KpiData) => item.continent == Some(v)
  }

  function ClimateIs(v: string): KpiData -> bool
  {
    (item: KpiData) => item.climate == Some(v)
  }

  function ModelSeriesIs(v: string): KpiData -> bool
  {
    (item: KpiData) => item.model_series == Some(v)
  }

  /** `if (active) rows = rows.filter(test)`. */
  function Narrow(rows: seq<KpiData>, active: bool, test: KpiData -> bool): seq<KpiData>
  {
    if active then Filter(rows, test) else rows
  }

  /** Whether narrowing step `k` (1: battAlias, 2: continent, 3: climate,
      4: model_series) applies: its optional filter value is truthy. */
  predicate Active(o: OptionalFilters, k: nat)
  {
    match k
    case 1 => Present(o.battAlias)
    case 2 => Present(o.continent)
    case 3 => Present(o.climate)
    case 4 => Present(o.model_series)
    case _ => false
  }

  /** The row test of narrowing step `k`. */
  function StepTest(o: OptionalFilters, k: nat): KpiData -> bool
  {
    match k
    case 1 => BattAliasIs(TextOf(o.battAlias))
    case 2 => ContinentIs(TextOf(o.continent))
    case 3 => ClimateIs(TextOf(o.climate))
    case 4 => ModelSeriesIs(TextOf(o.model_series))
    case _ => (item: KpiData) => true
  }

  /** The filtering steps of `getAggregatedDataByCountry`: keep the
      variable, then narrow by each non-empty optional filter in turn. */
  function NarrowedRows(data: seq<KpiData>, variable: string, filters: Option<OptionalFilters>): seq<KpiData>
  {
    var byVariable := Filter(data, VariableIs(variable));
    if filters.None? then byVariable
    else
      var o := filters.value;
      var r1 := Narrow(byVariable, Active(o, 1), StepTest(o, 1));
      var r2 := Narrow(r1, Active(o, 2), StepTest(o, 2));
      var r3 := Narrow(r2, Active(o, 3), StepTest(o, 3));
      Narrow(r3, Active(o, 4), StepTest(o, 4))
  }

  /** The conditions of the first `stage` narrowing steps (stage 0: the
      variable alone). */
  predicate PassesStages(variable: string, o: OptionalFilters, stage: nat, item: KpiData)
  {
    && item.variable == Some(variable)
    && (stage >= 1 && Present(o.battAlias) ==> item.battAlias == o.battAlias.value)
    && (stage >= 2 && Present(o.continent) ==> item.continent == o.continent)
    && (stage >= 3 && Present(o.climate) ==> item.climate == o.climate)
    && (stage >= 4 && Present(o.model_series) ==> item.model_series == o.model_series)
  }

  function Stage(variable: string, o: OptionalFilters, stage: nat): KpiData -> bool
  {
    (item: KpiData) => PassesStages(variable, o, stage, item)
  }

  /** Narrowing step `k` turns the rows passing the first `k - 1` steps
      into those passing the first `k`. */
  lemma NarrowStage(data: seq<KpiData>, variable: string, o: OptionalFilters, k: nat)
    requires 1 <= k <= 4
    ensures Narrow(Filter(data, Stage(variable, o, k - 1)), Active(o, k), StepTest(o, k))
         == Filter(data, Stage(variable, o, k))
  {
    var p, q, pq := Stage(variable, o, k - 1), StepTest(o, k), Stage(variable, o, k);
    forall x
      ensures pq(x) == (p(x) && (Active(o, k) ==> q(x)))
    {
      assert pq(x) == PassesStages(variable, o, k, x);
      assert p(x) == PassesStages(variable, o, k - 1, x);
    }
    if Active(o, k) {
      FilterFilter(data, p, q, pq);
    } else {
      FilterExt(data, p, pq);
    }
  }

  /** Narrowing step by step selects the same rows as `getFilteredData`
      with the same variable and filters. */
  lemma NarrowedRowsAreFiltered(data: seq<KpiData>, variable: string, filters: Option<OptionalFilters>)
    ensures NarrowedRows(data, variable, filters) == GetFilteredData(data, AsFilters(variable, filters))
  {
    var f := AsFilters(variable, filters);
    if filters.None? {
      FilterExt(data, VariableIs(variable), Matcher(f));
    } else {
      var o := filters.value;
      FilterExt(data, VariableIs(variable), Stage(variable, o, 0));
      NarrowStage(data, variable, o, 1);
      NarrowStage(data, variable, o, 2);
      NarrowStage(data, variable, o, 3);
      NarrowStage(data, variable, o, 4);
      FilterExt(data, Stage(variable, o, 4), Matcher(f));
    }
  }

  /** `item.iso_a3 ? item.iso_a3.toUpperCase() : ''`. */
  function CountryCode(item: KpiData): string
  {
    if item.iso_a3 != "" then Upper(item.iso_a3) else ""
  }

  /** The sum of the values of the rows whose country code is `code`. */
  function CountrySum(rows: seq<KpiData>, code: string): int
  {
    if |rows| == 0 then 0
    else
      var last := rows[|rows| - 1];
      CountrySum(rows[..|rows| - 1], code) + (if CountryCode(last) == code then last.value else 0)
  }

  /** The non-empty country codes of `rows`. */
  ghost function Codes(rows: seq<KpiData>): set<string>
  {
    set i | 0 <= i < |rows| && CountryCode(rows[i]) != "" :: CountryCode(rows[i])
  }

  /** One step of the `forEach`: a falsy (missing or zero) entry is
      overwritten with the value, a truthy one is incremented by it. */
  function AddRow(m: map<string, int>, item: KpiData): map<string, int>
  {
    var code := CountryCode(item);
    if code == "" then m
    else if code in m && m[code] != 0 then m[code := m[code] + item.value]
    else m[code := item.value]
  }

  /** The `filteredData.forEach` of `getAggregatedDataByCountry`: the
      per-country totals of `rows`. There is one key per non-empty country
      code, and each maps to the sum of its rows' values, whichever branch
      of the falsy-entry test is taken. */
  function AggregateByCountry(rows: seq<KpiData>): (m: map<string, int>)
    ensures m.Keys == Codes(rows)
    ensures forall k :: k in m ==> m[k] == CountrySum(rows, k)
  {
    if |rows| == 0 then map[]
    else
      var prefix := rows[..|rows| - 1];
      var item := rows[|rows| - 1];
      var m' := AggregateByCountry(prefix);
      assert rows == prefix + [item];
      AddRowStep(prefix, item, m');
      AddRow(m', item)
  }

  lemma CodesSnoc(rows: seq<KpiData>, item: KpiData)
    ensures Codes(rows + [item]) == Codes(rows) + (if CountryCode(item) != "" then {CountryCode(item)} else {})
  {
    var t := rows + [item];
    forall k | k in Codes(t)
      ensures k in Codes(rows) || (CountryCode(item) != "" && k == CountryCode(item))
    {
      var i :| 0 <= i < |t| && CountryCode(t[i]) != "" && CountryCode(t[i]) == k;
      if i < |rows| {
        assert t[i] == rows[i];
      }
    }
    forall k | k in Codes(rows)
      ensures k in Codes(t)
    {
      var i :| 0 <= i < |rows| && CountryCode(rows[i]) != "" && CountryCode(rows[i]) == k;
      assert t[i] == rows[i];
    }
    if CountryCode(item) != "" {
      assert t[|rows|] == item;
    }
  }

  lemma CountrySumSnoc(rows: seq<KpiData>, item: KpiData, code: string)
    ensures CountrySum(rows + [item], code) == CountrySum(rows, code) + (if CountryCode(item) == code then item.value else 0)
  {
    assert (rows + [item])[..|rows|] == rows;
  }

  lemma {:induction false} CountrySumAbsent(rows: seq<KpiData>, code: string)
    requires code != ""
    requires code !in Codes(rows)
    ensures CountrySum(rows, code) == 0
  {
    if |rows| > 0 {
      var prefix := rows[..|rows| - 1];
      assert rows == prefix + [rows[|rows| - 1]];
      CodesSnoc(prefix, rows[|rows| - 1]);
      CountrySumAbsent(prefix, code);
    }
  }

  lemma AddRowStep(prefix: seq<KpiData>, item: KpiData, m': map<string, int>)
    requires m'.Keys == Codes(prefix)
    requires forall k :: k in m' ==> m'[k] == CountrySum(prefix, k)
    ensures AddRow(m', item).Keys == Codes(prefix + [item])
    ensures forall k :: k in AddRow(m', item) ==> AddRow(m', item)[k] == CountrySum(prefix + [item], k)
  {
    CodesSnoc(prefix, item);
    forall k | k in AddRow(m', item)
      ensures AddRow(m', item)[k] == CountrySum(prefix + [item], k)
    {
      AddRowAt(prefix, item, m', k);
    }
  }

  lemma AddRowAt(prefix: seq<KpiData>, item: KpiData, m': map<string, int>, k: string)
    requires m'.Keys == Codes(prefix)
    requires forall k :: k in m' ==> m'[k] == CountrySum(prefix, k)
    requires k in AddRow(m', item)
    ensures AddRow(m', item)[k] == CountrySum(prefix + [item], k)
  {
    CountrySumSnoc(prefix, item, k);
    var code := CountryCode(item);
    if k == code && k !in m' {
      assert k != "";
      CountrySumAbsent(prefix, k);
    }
  }

  /** `getAggregatedDataByCountry`: over the rows `getFilteredData` keeps
      for the same variable and filters, one key per non-empty upper-cased
      country code, mapped to the sum of those rows' values. */
  function GetAggregatedDataByCountry(data: seq<KpiData>, variable: string, filters: Option<OptionalFilters>): (m: map<string, int>)
    ensures m.Keys == Codes(GetFilteredData(data, AsFilters(variable, filters)))
    ensures forall k :: k in m ==> m[k] == CountrySum(GetFilteredData(data, AsFilters(variable, filters)), k)
  {
    NarrowedRowsAreFiltered(data, variable, filters);
    AggregateByCountry(NarrowedRows(data, variable, filters))
  }

  // ----- getMinMaxValues -----

  /** An integer or one of the two infinities `Math.min()`/`Math.max()`
      return for no arguments. */
  datatype Extended = NegInf | Fin(v: int) | PosInf

  datatype MinMax = MinMax(min: Extended, max: Extended)

  /** `getMinMaxValues`: `Math.min`/`Math.max` over the map's values; an
      empty map gives `+Infinity`/`-Infinity`. */
  function GetMinMaxValues(m: map<string, int>): (r: MinMax)
    ensures |m| == 0 ==> r == MinMax(PosInf, NegInf)
    ensures |m| > 0 ==> && r.min.Fin? && r.max.Fin?
                        && r.min.v <= r.max.v
                        && r.min.v in m.Values && r.max.v in m.Values
                        && (forall k :: k in m ==> r.min.v <= m[k] <= r.max.v)
  {
    if |m| == 0 then MinMax(PosInf, NegInf)
    else
      var k0 :| k0 in m;
      assert m[k0] in m.Values;
      SetMinExists(m.Values);
      SetMaxExists(m.Values);
      var lo :| lo in m.Values && forall v :: v in m.Values ==> lo <= v;
      var hi :| hi in m.Values && forall v :: v in m.Values ==> v <= hi;
      assert forall k :: k in m ==> m[k] in m.Values;
      MinMax(Fin(lo), Fin(hi))
  }
}
