/** Record cleaning and the aggregations built on it
    (`src/data/preprocessing/dataCleanup.ts`): defaults for missing fields,
    per-group aggregates, per-(group, variable) sums, per-country geo rows
    and interquartile outlier selection. */
module DataCleanup {
  import opened Js
  import opened Text
  import opened Seqs
  import opened DataProcessor

  // ----- cleanData -----

  const Normal := "normal"
  const UnknownIso := "UNK"

  /** `if (!x || x === '') x = d`: a falsy text becomes the default. */
  function CleanText(c: Cell, d: string): Cell
  {
    if Present(c) then c else Some(d)
  }

  /** The cleaning of `val`: a string is parsed (0 when unparseable), null
      and undefined become 0, a number (NaN included) is kept. */
  function CleanVal(v: Value): Value
  {
    match v
    case Str(s) =>
      (match ParseFloat(s)
       case Some(x) => Num(Finite(x))
       case None => Num(Finite(0.0)))
    case Null => Num(Finite(0.0))
    case Undefined => Num(Finite(0.0))
    case Num(_) => v
  }

  /** The cleaning of `cnt_vhcl`: anything but a non-NaN number becomes 0. */
  function CleanCount(v: Value): Value
  {
    if IsFiniteNumber(v) then v else Num(Finite(0.0))
  }

  /** The cleaned copy of one record: the other fields are copied. */
  function CleanItem(item: BatteryData): (c: BatteryData)
    ensures c.battAlias == item.battAlias && c.model_series == item.model_series
    ensures c.variable == item.variable && c.descr == item.descr
  {
    item.(
      country := CleanText(item.country, Unknown),
      continent := CleanText(item.continent, Unknown),
      climate := CleanText(item.climate, Normal),
      iso_a3 := CleanText(item.iso_a3, UnknownIso),
      val := CleanVal(item.val),
      cnt_vhcl := CleanCount(item.cnt_vhcl))
  }

  /** Field by field: a truthy text is kept and a falsy one gets its
      default; `val` becomes a number, parsed from a string (0 when
      unparseable), 0 for null and undefined, and kept when it is a number;
      `cnt_vhcl` is kept when a non-NaN number and is 0 otherwise. This is
      the per-field case table of `cleanData`'s callback; the property it
      supports is `CleanItemFixedPoints`. */
  lemma CleanItemFields(item: BatteryData)
    ensures var c := CleanItem(item);
      && (Present(item.country) ==> c.country == item.country)
      && (!Present(item.country) ==> c.country == Some(Unknown))
      && (Present(item.continent) ==> c.continent == item.continent)
      && (!Present(item.continent) ==> c.continent == Some(Unknown))
      && (Present(item.climate) ==> c.climate == item.climate)
      && (!Present(item.climate) ==> c.climate == Some(Normal))
      && (Present(item.iso_a3) ==> c.iso_a3 == item.iso_a3)
      && (!Present(item.iso_a3) ==> c.iso_a3 == Some(UnknownIso))
      && (IsNumber(item.val) ==> c.val == item.val)
      && (item.val.Str? && ParseFloat(item.val.s).Some? ==> c.val == Num(Finite(ParseFloat(item.val.s).value)))
      && (item.val.Str? && ParseFloat(item.val.s).None? ==> c.val == Num(Finite(0.0)))
      && ((item.val.Null? || item.val.Undefined?) ==> c.val == Num(Finite(0.0)))
      && (IsFiniteNumber(item.cnt_vhcl) ==> c.cnt_vhcl == item.cnt_vhcl)
      && (!IsFiniteNumber(item.cnt_vhcl) ==> c.cnt_vhcl == Num(Finite(0.0)))
  {
  }

  /** A record cleaning leaves alone: its four defaulted texts are truthy,
      its `val` is a number and its `cnt_vhcl` a non-NaN number. */
  predicate IsClean(item: BatteryData)
  {
    && Present(item.country) && Present(item.continent) && Present(item.climate) && Present(item.iso_a3)
    && IsNumber(item.val) && IsFiniteNumber(item.cnt_vhcl)
  }

  /** Cleaning changes a record exactly when it is not clean. */
  lemma CleanItemFixedPoints(item: BatteryData)
    ensures CleanItem(item) == item <==> IsClean(item)
  {
  }

  function Cleaner(): BatteryData -> BatteryData
  {
    (item: BatteryData) => CleanItem(item)
  }

  /** `cleanData(data)`: one clean record per input record, in order. */
  function CleanData(data: seq<BatteryData>): (r: seq<BatteryData>)
    ensures |r| == |data|
    ensures forall i :: 0 <= i < |r| ==> IsClean(r[i]) && r[i] == CleanItem(data[i])
  {
    Map(data, Cleaner())
  }

  /** Cleaning clean data changes nothing, so cleaning is idempotent. */
  lemma CleanDataIdempotent(data: seq<BatteryData>)
    ensures CleanData(CleanData(data)) == CleanData(data)
  {
    var once := CleanData(data);
    forall i | 0 <= i < |once|
      ensures CleanData(once)[i] == once[i]
    {
      CleanItemFixedPoints(once[i]);
    }
  }

  /** Cleaning returns its input exactly when every record is clean. */
  lemma CleanDataFixedPoints(data: seq<BatteryData>)
    ensures CleanData(data) == data <==> forall i :: 0 <= i < |data| ==> IsClean(data[i])
  {
    if forall i :: 0 <= i < |data| ==> IsClean(data[i]) {
      forall i | 0 <= i < |data|
        ensures CleanData(data)[i] == data[i]
      {
        CleanItemFixedPoints(data[i]);
      }
    }
  }

  // ----- numbers read from a record -----

  /** Which numeric field a caller aggregates. */
  datatype ValueField = ValField | CntVhcl

  /** `Number(v)` for the values a numeric field can hold: null reads as 0,
      undefined as NaN. Strings are excluded by the callers, which would
      concatenate them; here they read as NaN. */
  function ToNumber(v: Value): Number
  {
    match v
    case Num(n) => n
    case Null => Finite(0.0)
    case Undefined => NaN
    case Str(_) => NaN
  }

  /** The `+` of the aggregation needs a number-like `cnt_vhcl` in every
      record: a string would turn the sum into a string. */
  predicate NoTextCounts(data: seq<BatteryData>)
  {
    forall i :: 0 <= i < |data| ==> !data[i].cnt_vhcl.Str?
  }

  /** The mapped value of `aggregateData`'s min/max: a numeric `val`, any
      `cnt_vhcl`, and 0 for a non-numeric `val`. */
  function Extracted(item: BatteryData, vf: ValueField): Number
  {
    match vf
    case ValField => if IsNumber(item.val) then item.val.n else Finite(0.0)
    case CntVhcl => ToNumber(item.cnt_vhcl)
  }

  function Extractor(vf: ValueField): BatteryData -> Number
  {
    (item: BatteryData) => Extracted(item, vf)
  }

  /** Whether the sum's `reduce` adds the item: its first two branches. */
  predicate Summed(item: BatteryData, vf: ValueField)
  {
    vf == CntVhcl || IsNumber(item.val)
  }

  /** The real an item adds to a NaN-free total. */
  function Term(vf: ValueField): BatteryData -> real
  {
    (item: BatteryData) => if Summed(item, vf) && Extracted(item, vf).Finite? then Extracted(item, vf).r else 0.0
  }

  /** The `reduce` of `aggregateData` from 0: adds the summed items and
      skips the rest. The total is NaN exactly when a summed item is NaN,
      and is otherwise the real sum of the terms. */
  function GroupSum(items: seq<BatteryData>, vf: ValueField): (s: Number)
    ensures s.NaN? <==> exists i :: 0 <= i < |items| && Summed(items[i], vf) && Extracted(items[i], vf).NaN?
    ensures s.Finite? ==> s.r == Sum(items, Term(vf))
  {
    if |items| == 0 then Finite(0.0)
    else
      var prefix := items[..|items| - 1];
      var item := items[|items| - 1];
      var acc := GroupSum(prefix, vf);
      assert items == prefix + [item];
      assert forall i :: 0 <= i < |prefix| ==> prefix[i] == items[i];
      if Summed(item, vf) then Add(acc, Extracted(item, vf)) else acc
  }

  /** `Math.min(...xs)` on a non-empty list: NaN when any element is NaN,
      otherwise the least element. */
  function MinNumber(xs: seq<Number>): (m: Number)
    requires |xs| > 0
    ensures m.NaN? <==> exists i :: 0 <= i < |xs| && xs[i].NaN?
    ensures m.Finite? ==> m in xs && forall i :: 0 <= i < |xs| ==> m.r <= xs[i].r
  {
    if |xs| == 1 then xs[0]
    else
      var prefix := xs[..|xs| - 1];
      assert forall i :: 0 <= i < |prefix| ==> prefix[i] == xs[i];
      assert xs == prefix + [xs[|xs| - 1]];
      Min(MinNumber(prefix), xs[|xs| - 1])
  }

  /** `Math.max(...xs)` on a non-empty list: NaN when any element is NaN,
      otherwise the greatest element. */
  function MaxNumber(xs: seq<Number>): (m: Number)
    requires |xs| > 0
    ensures m.NaN? <==> exists i :: 0 <= i < |xs| && xs[i].NaN?
    ensures m.Finite? ==> m in xs && forall i :: 0 <= i < |xs| ==> xs[i].r <= m.r
  {
    if |xs| == 1 then xs[0]
    else
      var prefix := xs[..|xs| - 1];
      assert forall i :: 0 <= i < |prefix| ==> prefix[i] == xs[i];
      assert xs == prefix + [xs[|xs| - 1]];
      Max(MaxNumber(prefix), xs[|xs| - 1])
  }

  // ----- aggregateData -----

  /** One output row of `aggregateData` without `avg`; the group key is the
      row's key in the result map. */
  datatype AggRow = AggRow(count: nat, sum: Number, min: Number, max: Number)

  function AggRowOf(items: seq<BatteryData>, vf: ValueField): AggRow
    requires |items| > 0
  {
    var xs := Map(items, Extractor(vf));
    AggRow(|items|, GroupSum(items, vf), MinNumber(xs), MaxNumber(xs))
  }

  /** What a row says about its group: the count is the group's size; the
      sum is NaN exactly when a summed value is, and otherwise the real sum
      of the terms; min and max are NaN exactly when a mapped value is, and
      otherwise are ordered, bound every mapped value and are attained. */
  ghost predicate Describes(row: AggRow, items: seq<BatteryData>, vf: ValueField)
  {
    && row.count == |items|
    && (row.sum.NaN? <==> exists i :: 0 <= i < |items| && Summed(items[i], vf) && Extracted(items[i], vf).NaN?)
    && (row.sum.Finite? ==> row.sum.r == Sum(items, Term(vf)))
    && (row.min.NaN? <==> row.max.NaN?)
    && (row.min.NaN? <==> exists i :: 0 <= i < |items| && Extracted(items[i], vf).NaN?)
    && (row.min.Finite? ==>
          && row.min.r <= row.max.r
          && (forall i :: 0 <= i < |items| ==> row.min.r <= Extracted(items[i], vf).r <= row.max.r)
          && (exists i :: 0 <= i < |items| && Extracted(items[i], vf) == row.min)
          && (exists i :: 0 <= i < |items| && Extracted(items[i], vf) == row.max))
  }

  lemma AggRowOfDescribes(items: seq<BatteryData>, vf: ValueField)
    requires |items| > 0
    ensures Describes(AggRowOf(items, vf), items, vf)
  {
    var xs := Map(items, Extractor(vf));
    var lo, hi := MinNumber(xs), MaxNumber(xs);
    if lo.Finite? {
      var a :| 0 <= a < |xs| && xs[a] == lo;
      var b :| 0 <= b < |xs| && xs[b] == hi;
      assert Extracted(items[a], vf) == lo;
      assert Extracted(items[b], vf) == hi;
    }
  }

  /** `aggregateData(data, groupBy, valueField)`, keyed by group: one row
      per key that occurs, describing the group's records. */
  function AggregateData(data: seq<BatteryData>, groupBy: TextField, vf: ValueField): (rows: map<string, AggRow>)
    requires vf == CntVhcl ==> NoTextCounts(data)
    ensures rows.Keys == GroupKeys(data, groupBy)
    ensures forall k :: k in rows ==>
              && rows[k].count == Count(data, InGroup(groupBy, k)) > 0
              && Describes(rows[k], Filter(data, InGroup(groupBy, k)), vf)
  {
    var g := GroupDataBy(data, groupBy);
    GroupsAreHomogeneous(data, groupBy);
    forall k | k in g
      ensures Describes(AggRowOf(g[k], vf), g[k], vf)
    {
      AggRowOfDescribes(g[k], vf);
    }
    map k | k in g :: AggRowOf(g[k], vf)
  }

  /** The row counts add up to the number of records. */
  lemma AggregateCounts(data: seq<BatteryData>, groupBy: TextField, vf: ValueField)
    requires vf == CntVhcl ==> NoTextCounts(data)
    ensures var rows := AggregateData(data, groupBy, vf);
      var ks := KeyList(data, groupBy);
      && (forall i :: 0 <= i < |ks| ==> ks[i] in rows)
      && (forall k :: k in rows ==> k in ks)
      && KeyedCount(data, groupBy, ks) == |data|
  {
    GroupsPartition(data, groupBy);
    GroupSizesAreCounts(data, groupBy, KeyList(data, groupBy));
  }

  // ----- prepareTimeSeriesData -----

  /** The property name `item.var` stands for: the text, or `"undefined"`
      when the cell is absent. */
  function VarName(c: Cell): string
  {
    if c.Some? then c.value else "undefined"
  }

  /** The per-variable totals of one group. */
  type Series = map<string, Number>

  /** The body of `prepareTimeSeriesData`'s `forEach` for one record: a
      numeric `val` is stored under the variable when the current entry is
      missing or falsy (0 or NaN), and added to it otherwise; a non-numeric
      `val` changes nothing. */
  function SeriesStep(series: Series, item: BatteryData): Series
  {
    if IsNumber(item.val) then
      var name := VarName(item.variable);
      if name in series && NumberTruthy(series[name]) then series[name := Add(series[name], item.val.n)]
      else series[name := item.val.n]
    else series
  }

  /** One iteration of the `forEach`: create the group on first use, then
      update its series. */
  function TimeSeriesStep(groups: map<string, Series>, item: BatteryData, groupBy: TextField): map<string, Series>
  {
    var key := GroupKey(item, groupBy);
    var series := if key in groups then groups[key] else map[];
    groups[key := SeriesStep(series, item)]
  }

  /** The record contributes a numeric `val` to group `k`, variable `name`. */
  predicate InSeries(item: BatteryData, groupBy: TextField, k: string, name: string)
  {
    GroupKey(item, groupBy) == k && VarName(item.variable) == name && IsNumber(item.val)
  }

  ghost predicate HasSeries(data: seq<BatteryData>, groupBy: TextField, k: string, name: string)
  {
    exists i :: 0 <= i < |data| && InSeries(data[i], groupBy, k, name)
  }

  /** No value of the series is NaN. */
  ghost predicate SeriesFinite(data: seq<BatteryData>, groupBy: TextField, k: string, name: string)
  {
    forall i :: 0 <= i < |data| && InSeries(data[i], groupBy, k, name) ==> data[i].val.n.Finite?
  }

  /** The real a record adds to the series `(k, name)`. */
  function SeriesTerm(groupBy: TextField, k: string, name: string): BatteryData -> real
  {
    (item: BatteryData) => if InSeries(item, groupBy, k, name) && item.val.n.Finite? then item.val.n.r else 0.0
  }

  /** The groups of `prepareTimeSeriesData` after reading `data`: one per
      key that occurs, an entry per variable with a numeric `val` in the
      group, and, for a series without NaN, the sum of its values. */
  ghost predicate TimeSeriesInv(data: seq<BatteryData>, groupBy: TextField, groups: map<string, Series>)
  {
    && groups.Keys == GroupKeys(data, groupBy)
    && (forall k, name :: k in groups ==> (name in groups[k] <==> HasSeries(data, groupBy, k, name)))
    && (forall k, name :: k in groups && name in groups[k] && SeriesFinite(data, groupBy, k, name) ==>
          groups[k][name] == Finite(Sum(data, SeriesTerm(groupBy, k, name))))
  }

  /** `prepareTimeSeriesData`'s `forEach` over `data`, which fills `groups`. */
  function TimeSeriesGroups(data: seq<BatteryData>, groupBy: TextField): (groups: map<string, Series>)
    ensures TimeSeriesInv(data, groupBy, groups)
  {
    if |data| == 0 then map[]
    else
      var prefix := data[..|data| - 1];
      var item := data[|data| - 1];
      assert data == prefix + [item];
      var g' := TimeSeriesGroups(prefix, groupBy);
      TimeSeriesStepInv(prefix, item, groupBy, g');
      TimeSeriesStep(g', item, groupBy)
  }

  lemma TimeSeriesStepInv(prefix: seq<BatteryData>, item: BatteryData, groupBy: TextField, g': map<string, Series>)
    requires TimeSeriesInv(prefix, groupBy, g')
    ensures TimeSeriesInv(prefix + [item], groupBy, TimeSeriesStep(g', item, groupBy))
  {
    GroupKeysSnoc(prefix, item, groupBy);
    var g := TimeSeriesStep(g', item, groupBy);
    forall k, name | k in g
      ensures name in g[k] <==> HasSeries(prefix + [item], groupBy, k, name)
      ensures name in g[k] && SeriesFinite(prefix + [item], groupBy, k, name) ==>
                g[k][name] == Finite(Sum(prefix + [item], SeriesTerm(groupBy, k, name)))
    {
      TimeSeriesStepAt(prefix, item, groupBy, g', k, name);
    }
  }

  /** How one more record changes the series facts of `(k, name)`. */
  lemma SeriesSnoc(prefix: seq<BatteryData>, item: BatteryData, groupBy: TextField, k: string, name: string)
    ensures HasSeries(prefix + [item], groupBy, k, name) <==> HasSeries(prefix, groupBy, k, name) || InSeries(item, groupBy, k, name)
    ensures SeriesFinite(prefix + [item], groupBy, k, name) <==>
              SeriesFinite(prefix, groupBy, k, name) && (InSeries(item, groupBy, k, name) ==> item.val.n.Finite?)
    ensures Sum(prefix + [item], SeriesTerm(groupBy, k, name)) == Sum(prefix, SeriesTerm(groupBy, k, name)) + SeriesTerm(groupBy, k, name)(item)
  {
    var t := prefix + [item];
    assert forall i :: 0 <= i < |prefix| ==> t[i] == prefix[i];
    assert t[|prefix|] == item;
    SumSnoc(prefix, item, SeriesTerm(groupBy, k, name));
  }

  /** A series no record contributes to sums to zero. */
  lemma SeriesAbsent(data: seq<BatteryData>, groupBy: TextField, k: string, name: string)
    requires !HasSeries(data, groupBy, k, name)
    ensures Sum(data, SeriesTerm(groupBy, k, name)) == 0.0
  {
    SumZero(data, SeriesTerm(groupBy, k, name));
  }

  lemma TimeSeriesStepAt(prefix: seq<BatteryData>, item: BatteryData, groupBy: TextField, g': map<string, Series>, k: string, name: string)
    requires TimeSeriesInv(prefix, groupBy, g')
    requires k in TimeSeriesStep(g', item, groupBy)
    ensures name in TimeSeriesStep(g', item, groupBy)[k] <==> HasSeries(prefix + [item], groupBy, k, name)
    ensures name in TimeSeriesStep(g', item, groupBy)[k] && SeriesFinite(prefix + [item], groupBy, k, name) ==>
              TimeSeriesStep(g', item, groupBy)[k][name] == Finite(Sum(prefix + [item], SeriesTerm(groupBy, k, name)))
  {
    var key := GroupKey(item, groupBy);
    if k != key {
      SeriesSnoc(prefix, item, groupBy, k, name);
      assert TimeSeriesStep(g', item, groupBy)[k] == g'[k];
    } else {
      var series := if key in g' then g'[key] else map[];
      SeriesStepAt(series, prefix, item, groupBy, k, name);
      assert TimeSeriesStep(g', item, groupBy)[k] == SeriesStep(series, item);
    }
  }

  /** One record's update of its own group's series keeps the series facts. */
  lemma SeriesStepAt(series: Series, prefix: seq<BatteryData>, item: BatteryData, groupBy: TextField, k: string, name: string)
    requires GroupKey(item, groupBy) == k
    requires name in series <==> HasSeries(prefix, groupBy, k, name)
    requires name in series && SeriesFinite(prefix, groupBy, k, name) ==>
               series[name] == Finite(Sum(prefix, SeriesTerm(groupBy, k, name)))
    ensures name in SeriesStep(series, item) <==> HasSeries(prefix + [item], groupBy, k, name)
    ensures name in SeriesStep(series, item) && SeriesFinite(prefix + [item], groupBy, k, name) ==>
              SeriesStep(series, item)[name] == Finite(Sum(prefix + [item], SeriesTerm(groupBy, k, name)))
  {
    SeriesSnoc(prefix, item, groupBy, k, name);
    if !HasSeries(prefix, groupBy, k, name) {
      SeriesAbsent(prefix, groupBy, k, name);
    }
  }

  /** `prepareTimeSeriesData(data, groupBy)`, keyed by group name: one
      series per group key that occurs; a variable has an entry exactly when
      some record of the group has a numeric `val` for it; and an entry
      whose values hold no NaN is their sum. */
  function PrepareTimeSeriesData(data: seq<BatteryData>, groupBy: TextField): (r: map<string, Series>)
    ensures r.Keys == GroupKeys(data, groupBy)
    ensures forall k, name :: k in r ==>
              (name in r[k] <==> exists i :: 0 <= i < |data| && InSeries(data[i], groupBy, k, name))
    ensures forall k, name :: k in r && name in r[k] && SeriesFinite(data, groupBy, k, name) ==>
              r[k][name] == Finite(Sum(data, SeriesTerm(groupBy, k, name)))
  {
    TimeSeriesGroups(data, groupBy)
  }

  // ----- prepareGeoData -----

  /** The rows `prepareGeoData` keeps: a truthy ISO code other than `UNK`. */
  predicate KnownIso(item: BatteryData)
  {
    Present(item.iso_a3) && item.iso_a3.value != UnknownIso
  }

  function Known(): BatteryData -> bool
  {
    (item: BatteryData) => KnownIso(item)
  }

  function IsoIs(k: string): BatteryData -> bool
  {
    (item: BatteryData) => item.iso_a3 == Some(k)
  }

  /** The real part of a number, 0 for NaN. */
  function RealOf(n: Number): real
  {
    if n.Finite? then n.r else 0.0
  }

  /** `xs.reduce((acc, x) => acc + x, 0)`: NaN exactly when some element is,
      and otherwise the real sum. */
  function Total(xs: seq<Number>): (s: Number)
    ensures s.NaN? <==> exists i :: 0 <= i < |xs| && xs[i].NaN?
    ensures s.Finite? ==> s.r == Sum(xs, RealOf)
  {
    if |xs| == 0 then Finite(0.0)
    else
      var prefix := xs[..|xs| - 1];
      assert xs == prefix + [xs[|xs| - 1]];
      assert forall i :: 0 <= i < |prefix| ==> prefix[i] == xs[i];
      Add(Total(prefix), xs[|xs| - 1])
  }

  function CountOf(item: BatteryData): Number
  {
    ToNumber(item.cnt_vhcl)
  }

  function VehicleCount(item: BatteryData): real
  {
    RealOf(ToNumber(item.cnt_vhcl))
  }

  /** One geo data point without `value` (the average). */
  datatype GeoRow = GeoRow(
    iso: string,
    country: string,
    continent: string,
    climate: string,
    count: nat,
    sum: Number,
    vehicleCount: Number,
    batteryTypes: seq<Cell>,
    variables: seq<Cell>)

  /** `items[0]?.field || d`: the first record's text, or `d` when it is
      falsy or there is no record. */
  function FirstText(items: seq<BatteryData>, field: TextField, d: string): (t: string)
    ensures |items| > 0 ==> t == OrDefault(TextAt(items[0], field), d)
    ensures |items| == 0 ==> t == d
  {
    if |items| == 0 then d else OrDefault(TextAt(items[0], field), d)
  }

  /** The `Object.entries(countryGroups).map(…)` callback of
      `prepareGeoData` for one country group. */
  function GeoRowOf(iso: string, items: seq<BatteryData>): GeoRow
  {
    GeoRow(
      iso,
      FirstText(items, Country, Unknown),
      FirstText(items, Continent, Unknown),
      FirstText(items, Climate, Normal),
      |items|,
      Total(Map(items, Extractor(ValField))),
      Total(Map(items, CountOf)),
      Distinct(Map(items, BattAliasOf)),
      Distinct(Map(items, VarOf)))
  }

  function BattAliasOf(item: BatteryData): Cell { item.battAlias }
  function VarOf(item: BatteryData): Cell { item.variable }

  /** `prepareGeoData`'s `countryGroups`: the cleaned rows with a known
      code, grouped by it. */
  function GeoGroups(data: seq<BatteryData>): map<string, seq<BatteryData>>
  {
    GroupDataBy(Filter(CleanData(data), Known()), IsoA3)
  }

  /** What a geo row says about the cleaned records of its code: its
      labels and counts, and its totals. */
  ghost predicate GeoDescribes(row: GeoRow, k: string, items: seq<BatteryData>)
  {
    |items| > 0 && GeoLabels(row, k, items) && GeoLists(row, items) && GeoTotals(row, items)
  }

  /** The row counts the records, and its texts are the first record's,
      or `'Unbekannt'` (`'normal'` for the climate) when falsy. */
  ghost predicate GeoLabels(row: GeoRow, k: string, items: seq<BatteryData>)
    requires |items| > 0
  {
    && row.iso == k
    && row.country == OrDefault(items[0].country, Unknown)
    && row.continent == OrDefault(items[0].continent, Unknown)
    && row.climate == OrDefault(items[0].climate, Normal)
    && row.count == |items|
  }

  /** The row's battery types and variables are the distinct values in
      order of first occurrence. */
  ghost predicate GeoLists(row: GeoRow, items: seq<BatteryData>)
  {
    && FirstOccurrences(row.batteryTypes, Map(items, BattAliasOf))
    && FirstOccurrences(row.variables, Map(items, VarOf))
  }

  /** The row's vehicle count is the real sum of the records' `cnt_vhcl`;
      its sum is NaN exactly when one of their vals is, and otherwise the
      real sum of their vals. */
  ghost predicate GeoTotals(row: GeoRow, items: seq<BatteryData>)
  {
    && row.vehicleCount == Finite(Sum(items, VehicleCount))
    && (row.sum.NaN? <==> exists i :: 0 <= i < |items| && items[i].val == Num(NaN))
    && (row.sum.Finite? ==> row.sum.r == Sum(items, Term(ValField)))
  }

  /** `prepareGeoData(data)`, keyed by ISO code: a row per code other than
      `UNK` that some record carries, describing the cleaned records of that
      code. */
  function PrepareGeoData(data: seq<BatteryData>): (r: map<string, GeoRow>)
    ensures r.Keys == KnownCodes(data)
    ensures forall k :: k in r ==> GeoDescribes(r[k], k, Filter(CleanData(data), IsoIs(k)))
  {
    GeoKeys(data);
    var r := GeoRows(GeoGroups(data));
    assert forall k :: k in r ==> GeoDescribes(r[k], k, Filter(CleanData(data), IsoIs(k))) by {
      forall k | k in r
        ensures GeoDescribes(r[k], k, Filter(CleanData(data), IsoIs(k)))
      {
        GeoRowDescribes(data, k);
      }
    }
    r
  }

  /** One row per group. */
  function GeoRows(g: map<string, seq<BatteryData>>): (r: map<string, GeoRow>)
    ensures r.Keys == g.Keys
    ensures forall k :: k in r ==> r[k] == GeoRowOf(k, g[k])
  {
    map k | k in g :: GeoRowOf(k, g[k])
  }

  lemma GeoRowDescribes(data: seq<BatteryData>, k: string)
    requires k in GeoGroups(data)
    ensures GeoDescribes(GeoRowOf(k, GeoGroups(data)[k]), k, Filter(CleanData(data), IsoIs(k)))
  {
    var items := Filter(CleanData(data), IsoIs(k));
    GeoGroupIsCode(data, k);
    GroupsAreHomogeneous(Filter(CleanData(data), Known()), IsoA3);
    GeoRowOfClean(k, items);
  }

  /** The row of a non-empty group of clean records describes it. */
  lemma GeoRowOfClean(k: string, items: seq<BatteryData>)
    requires |items| > 0
    requires forall i :: 0 <= i < |items| ==> IsClean(items[i])
    ensures GeoDescribes(GeoRowOf(k, items), k, items)
  {
    GeoRowLabels(k, items);
    GeoRowLists(k, items);
    GeoRowTotals(k, items);
  }

  lemma GeoRowLabels(k: string, items: seq<BatteryData>)
    requires |items| > 0
    ensures GeoLabels(GeoRowOf(k, items), k, items)
  {
    LabelFields(items[0]);
  }

  lemma LabelFields(x: BatteryData)
    ensures TextAt(x, Country) == x.country
    ensures TextAt(x, Continent) == x.continent
    ensures TextAt(x, Climate) == x.climate
  {
  }

  lemma GeoRowLists(k: string, items: seq<BatteryData>)
    ensures GeoLists(GeoRowOf(k, items), items)
  {
  }

  lemma GeoRowTotals(k: string, items: seq<BatteryData>)
    requires forall i :: 0 <= i < |items| ==> IsClean(items[i])
    ensures GeoTotals(GeoRowOf(k, items), items)
  {
    GeoVehicleTotal(items);
    GeoValueTotal(items);
    GeoValueSum(items);
  }


  /** The truthy codes other than `UNK` that the records carry. */
  ghost function KnownCodes(data: seq<BatteryData>): set<string>
  {
    set i | 0 <= i < |data| && KnownIso(data[i]) :: data[i].iso_a3.value
  }

  /** The group keys are the known codes the records carry. */
  lemma GeoKeys(data: seq<BatteryData>)
    ensures GeoGroups(data).Keys == KnownCodes(data)
  {
    forall k | k in GeoGroups(data)
      ensures k in KnownCodes(data)
    {
      GeoKeyCarried(data, k);
      var i :| 0 <= i < |data| && data[i].iso_a3 == Some(k);
      assert KnownIso(data[i]);
    }
    forall k | k in KnownCodes(data)
      ensures k in GeoGroups(data)
    {
      var i :| 0 <= i < |data| && KnownIso(data[i]) && data[i].iso_a3.value == k;
      GeoKeyOfRecord(data, i);
    }
  }

  /** Cleaning keeps a known code and never makes a code known. */
  lemma CleanedIso(data: seq<BatteryData>, i: nat)
    requires i < |data|
    ensures KnownIso(CleanData(data)[i]) <==> KnownIso(data[i])
    ensures KnownIso(data[i]) ==> CleanData(data)[i].iso_a3 == data[i].iso_a3
  {
    CleanItemFields(data[i]);
  }

  lemma GeoKeyCarried(data: seq<BatteryData>, k: string)
    requires k in GeoGroups(data)
    ensures k != "" && k != UnknownIso && exists i :: 0 <= i < |data| && data[i].iso_a3 == Some(k)
  {
    var cleaned := CleanData(data);
    var kept := Filter(cleaned, Known());
    GroupKeyWitness(kept, IsoA3, k);
    var j :| 0 <= j < |kept| && GroupKey(kept[j], IsoA3) == k;
    FilterWitness(cleaned, Known(), kept[j]);
    var x := kept[j];
    assert KnownIso(x);
    var i :| 0 <= i < |cleaned| && cleaned[i] == x;
    CleanedIso(data, i);
    assert KnownIso(data[i]) && data[i].iso_a3 == x.iso_a3;
    KnownKey(x);
  }

  lemma GeoKeyOfRecord(data: seq<BatteryData>, i: nat)
    requires i < |data| && KnownIso(data[i])
    ensures data[i].iso_a3.value in GeoGroups(data)
  {
    var cleaned := CleanData(data);
    var kept := Filter(cleaned, Known());
    CleanedIso(data, i);
    FilterKeeps(cleaned, Known(), i);
    var j :| 0 <= j < |kept| && kept[j] == cleaned[i];
    GroupKeyOf(kept, IsoA3, j);
    KnownKey(cleaned[i]);
    assert GeoGroups(data) == GroupDataBy(kept, IsoA3);
  }

  /** The group of a known code is the cleaned records carrying it. */
  lemma GeoGroupIsCode(data: seq<BatteryData>, k: string)
    requires k in GeoGroups(data)
    ensures GeoGroups(data)[k] == Filter(CleanData(data), IsoIs(k))
  {
    GeoKeyCarried(data, k);
    forall x: BatteryData
      ensures IsoIs(k)(x) == (Known()(x) && InGroup(IsoA3, k)(x))
    {
      KnownCode(k, x);
    }
    FilterFilter(CleanData(data), Known(), InGroup(IsoA3, k), IsoIs(k));
  }

  /** A known code is its own group key. */
  lemma KnownKey(x: BatteryData)
    requires KnownIso(x)
    ensures GroupKey(x, IsoA3) == x.iso_a3.value
  {
  }

  lemma KnownCode(k: string, x: BatteryData)
    requires k != "" && k != UnknownIso
    ensures x.iso_a3 == Some(k) <==> KnownIso(x) && GroupKey(x, IsoA3) == k
  {
  }

  /** On clean records the vehicle total is the finite real sum. */
  lemma {:induction false} GeoVehicleTotal(items: seq<BatteryData>)
    requires forall i :: 0 <= i < |items| ==> IsClean(items[i])
    ensures Total(Map(items, CountOf)) == Finite(Sum(items, VehicleCount))
  {
    if |items| > 0 {
      var prefix := items[..|items| - 1];
      var last := items[|items| - 1];
      assert items == prefix + [last];
      assert IsClean(last);
      MapSnoc(prefix, last, CountOf);
      TotalSnoc(Map(prefix, CountOf), CountOf(last));
      SumSnoc(prefix, last, VehicleCount);
      GeoVehicleTotal(prefix);
    }
  }

  lemma TotalSnoc(xs: seq<Number>, x: Number)
    ensures Total(xs + [x]) == Add(Total(xs), x)
  {
    assert (xs + [x])[..|xs|] == xs;
  }

  /** A NaN-free value total is the real sum of the numeric vals. */
  lemma {:induction false} GeoValueSum(items: seq<BatteryData>)
    ensures Total(Map(items, Extractor(ValField))).Finite? ==>
              Total(Map(items, Extractor(ValField))).r == Sum(items, Term(ValField))
  {
    ValTermSum(items);
  }

  lemma {:induction false} ValTermSum(items: seq<BatteryData>)
    ensures Sum(Map(items, Extractor(ValField)), RealOf) == Sum(items, Term(ValField))
  {
    if |items| > 0 {
      var prefix := items[..|items| - 1];
      var last := items[|items| - 1];
      assert items == prefix + [last];
      MapSnoc(prefix, last, Extractor(ValField));
      SumSnoc(Map(prefix, Extractor(ValField)), Extracted(last, ValField), RealOf);
      SumSnoc(prefix, last, Term(ValField));
      ValTermSum(prefix);
    }
  }

  /** On clean records the value total is NaN exactly when a val is. */
  lemma GeoValueTotal(items: seq<BatteryData>)
    requires forall i :: 0 <= i < |items| ==> IsClean(items[i])
    ensures Total(Map(items, Extractor(ValField))).NaN? <==> exists i :: 0 <= i < |items| && items[i].val == Num(NaN)
  {
    var vals := Map(items, Extractor(ValField));
    if exists i :: 0 <= i < |items| && items[i].val == Num(NaN) {
      var i :| 0 <= i < |items| && items[i].val == Num(NaN);
      assert vals[i].NaN?;
    }
  }

  // ----- identifyOutliers -----

  /** Records on which the quartiles of `identifyOutliers` are well defined:
      a numeric `val` is never NaN, and a `cnt_vhcl` is a finite number or
      null. */
  predicate Admissible(item: BatteryData, field: ValueField)
  {
    match field
    case ValField => item.val.Num? ==> item.val.n.Finite?
    case CntVhcl => item.cnt_vhcl.Null? || IsFiniteNumber(item.cnt_vhcl)
  }

  predicate OutlierInput(data: seq<BatteryData>, field: ValueField)
  {
    forall i :: 0 <= i < |data| ==> Admissible(data[i], field)
  }

  /** Whether the record contributes to the sample (the `map` and
      `filter(val => val !== null)` that build `values`): a numeric `val`,
      or any non-null `cnt_vhcl`. */
  predicate Sampled(item: BatteryData, field: ValueField)
  {
    match field
    case ValField => item.val.Num?
    case CntVhcl => !item.cnt_vhcl.Null?
  }

  function Sampler(field: ValueField): BatteryData -> bool
  {
    (item: BatteryData) => Sampled(item, field)
  }

  /** Whether the record is compared with the fences (the final
      `data.filter`): for `val` only a numeric one; for `cnt_vhcl` every
      record. */
  predicate Compared(item: BatteryData, field: ValueField)
  {
    field == CntVhcl || item.val.Num?
  }

  /** The number a record is compared as; a null count compares as 0. */
  function Reading(item: BatteryData, field: ValueField): real
  {
    match field
    case ValField => if item.val.Num? then RealOf(item.val.n) else 0.0
    case CntVhcl => if item.cnt_vhcl.Num? then RealOf(item.cnt_vhcl.n) else 0.0
  }

  function Reader(field: ValueField): BatteryData -> real
  {
    (item: BatteryData) => Reading(item, field)
  }

  /** The numbers the quartiles are taken from, in record order. */
  function Sample(data: seq<BatteryData>, field: ValueField): seq<real>
  {
    Map(Filter(data, Sampler(field)), Reader(field))
  }

  datatype Fences = Fences(q1: real, q3: real, lower: real, upper: real)

  /** The quartiles and bounds of `identifyOutliers` on the ascending
      sample: the quartiles at the floors of a quarter and three quarters of
      the length, and the fences one and a half interquartile ranges beyond
      them. */
  function FencesOf(sorted: seq<real>): (f: Fences)
    requires |sorted| > 0
    ensures f.q1 == sorted[|sorted| / 4] && f.q3 == sorted[3 * |sorted| / 4]
    ensures Sorted(sorted) ==> f.lower <= f.q1 <= f.q3 <= f.upper
    ensures f.upper - f.lower == 4.0 * (f.q3 - f.q1)
    ensures f.q1 - f.lower == f.upper - f.q3
  {
    var q1 := sorted[|sorted| / 4];
    var q3 := sorted[3 * |sorted| / 4];
    var iqr := q3 - q1;
    Fences(q1, q3, q1 - 1.5 * iqr, q3 + 1.5 * iqr)
  }

  predicate Outside(item: BatteryData, field: ValueField, f: Fences)
  {
    Compared(item, field) && (Reading(item, field) < f.lower || Reading(item, field) > f.upper)
  }

  function Outlier(field: ValueField, f: Fences): BatteryData -> bool
  {
    (item: BatteryData) => Outside(item, field, f)
  }

  /** The fences of a non-empty sample. */
  function SampleFences(data: seq<BatteryData>, field: ValueField): Fences
    requires |Sample(data, field)| > 0
  {
    FencesOf(SortAscending(Sample(data, field)))
  }

  /** `identifyOutliers(data, field)`: nothing for an empty sample (the
      fences are then NaN); otherwise exactly the compared records whose
      number lies strictly outside the fences, in their original order. */
  function IdentifyOutliers(data: seq<BatteryData>, field: ValueField): (r: seq<BatteryData>)
    requires OutlierInput(data, field)
    ensures |Sample(data, field)| == 0 ==> r == []
    ensures IsSubseq(r, data)
    ensures |Sample(data, field)| > 0 ==>
              && (forall i :: 0 <= i < |r| ==> Outside(r[i], field, SampleFences(data, field)))
              && (forall i :: 0 <= i < |data| && Outside(data[i], field, SampleFences(data, field)) ==> data[i] in r)
              && |r| == Count(data, Outlier(field, SampleFences(data, field)))
  {
    if |Sample(data, field)| == 0 then []
    else Filter(data, Outlier(field, SampleFences(data, field)))
  }

  /** A record compared at a number between the quartiles is never an
      outlier. */
  lemma CentralNotOutlier(data: seq<BatteryData>, field: ValueField, item: BatteryData)
    requires OutlierInput(data, field)
    requires |Sample(data, field)| > 0
    requires SampleFences(data, field).q1 <= Reading(item, field) <= SampleFences(data, field).q3
    ensures item !in IdentifyOutliers(data, field)
  {
  }

  /** The quartiles are order statistics of the sample itself: at most
      `n / 4` values lie below the first and more than `n / 4` at or below
      it, and likewise for the third with `3 * n / 4`. */
  lemma QuartileRanks(data: seq<BatteryData>, field: ValueField)
    requires |Sample(data, field)| > 0
    ensures var xs := Sample(data, field);
            var f := SampleFences(data, field);
            && Count(xs, Below(f.q1)) <= |xs| / 4 < Count(xs, AtMost(f.q1))
            && Count(xs, Below(f.q3)) <= 3 * |xs| / 4 < Count(xs, AtMost(f.q3))
  {
    var xs := Sample(data, field);
    SortRank(xs, |xs| / 4);
    SortRank(xs, 3 * |xs| / 4);
  }

  /** On admissible records the sample holds the numbers themselves: the
      finite vals, or the non-null counts. */
  lemma SampleReadings(data: seq<BatteryData>, field: ValueField, i: nat)
    requires OutlierInput(data, field) && i < |data| && Sampled(data[i], field)
    ensures Reading(data[i], field) in Sample(data, field)
    ensures field == ValField ==> data[i].val == Num(Finite(Reading(data[i], field)))
    ensures field == CntVhcl ==> data[i].cnt_vhcl == Num(Finite(Reading(data[i], field)))
  {
    var kept := Filter(data, Sampler(field));
    assert Sampler(field)(data[i]);
    var j :| 0 <= j < |kept| && kept[j] == data[i];
    assert Sample(data, field)[j] == Reading(data[i], field);
  }
}
