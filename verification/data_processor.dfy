/** The generic preprocessing helpers over battery records
    (`src/data/preprocessing/dataProcessor.ts`): grouping by a field,
    filtering by a partial record, statistics over the numeric values and
    the per-country rows of the map. */
module DataProcessor {
  import opened Js
  import opened Seqs

  /** One row of the battery table, the `BatteryData` interface. Text cells
      are `None` when the row leaves them `undefined` or `null`; `val` and
      `cnt_vhcl` are dynamically typed. */
  datatype BatteryData = BatteryData(
    battAlias: Cell,
    country: Cell,
    continent: Cell,
    climate: Cell,
    iso_a3: Cell,
    model_series: Cell,
    variable: Cell,
    val: Value,
    descr: Cell,
    cnt_vhcl: Value)

  /** The text-valued keys of `BatteryData` a caller may group by. */
  datatype TextField = BattAlias | Country | Continent | Climate | IsoA3 | ModelSeries | Var | Descr

  /** `item[field]` for a text field. */
  function TextAt(item: BatteryData, field: TextField): Cell
  {
    match field
    case BattAlias => item.battAlias
    case Country => item.country
    case Continent => item.continent
    case Climate => item.climate
    case IsoA3 => item.iso_a3
    case ModelSeries => item.model_series
    case Var => item.variable
    case Descr => item.descr
  }

  /** The fallback key and label for a missing text. */
  const Unknown := "Unbekannt"

  // ----- groupDataBy -----

  /** `String(item[field] || 'Unbekannt')`. */
  function GroupKey(item: BatteryData, field: TextField): string
  {
    OrDefault(TextAt(item, field), Unknown)
  }

  function KeyOf(field: TextField): BatteryData -> string
  {
    (item: BatteryData) => GroupKey(item, field)
  }

  function InGroup(field: TextField, k: string): BatteryData -> bool
  {
    (item: BatteryData) => GroupKey(item, field) == k
  }

  /** The keys the items of `data` fall under. */
  ghost function GroupKeys(data: seq<BatteryData>, field: TextField): set<string>
  {
    set i | 0 <= i < |data| :: GroupKey(data[i], field)
  }

  /** One step of the `reduce`: create the group on first use, then push. */
  function AddToGroup(g: map<string, seq<BatteryData>>, key: string, item: BatteryData): map<string, seq<BatteryData>>
  {
    var group := if key in g then g[key] else [];
    g[key := group + [item]]
  }

  /** `groupDataBy(data, field)`: one group per key that occurs, holding
      exactly the items with that key in input order. */
  function GroupDataBy(data: seq<BatteryData>, field: TextField): (g: map<string, seq<BatteryData>>)
    ensures g.Keys == GroupKeys(data, field)
    ensures forall k :: k in g ==> g[k] == Filter(data, InGroup(field, k))
  {
    if |data| == 0 then map[]
    else
      var prefix := data[..|data| - 1];
      var item := data[|data| - 1];
      assert data == prefix + [item];
      var g' := GroupDataBy(prefix, field);
      GroupStep(prefix, item, field, g');
      AddToGroup(g', GroupKey(item, field), item)
  }

  lemma GroupKeysSnoc(data: seq<BatteryData>, item: BatteryData, field: TextField)
    ensures GroupKeys(data + [item], field) == GroupKeys(data, field) + {GroupKey(item, field)}
  {
    var t := data + [item];
    forall k | k in GroupKeys(t, field)
      ensures k in GroupKeys(data, field) || k == GroupKey(item, field)
    {
      var i :| 0 <= i < |t| && GroupKey(t[i], field) == k;
      if i < |data| {
        assert t[i] == data[i];
      }
    }
    forall k | k in GroupKeys(data, field)
      ensures k in GroupKeys(t, field)
    {
      var i :| 0 <= i < |data| && GroupKey(data[i], field) == k;
      assert t[i] == data[i];
    }
    assert t[|data|] == item;
  }

  /** No item has a key outside the key set, so its group is empty. */
  lemma GroupOfAbsentKey(data: seq<BatteryData>, field: TextField, k: string)
    requires k !in GroupKeys(data, field)
    ensures Filter(data, InGroup(field, k)) == []
  {
  }

  lemma GroupStep(prefix: seq<BatteryData>, item: BatteryData, field: TextField, g': map<string, seq<BatteryData>>)
    requires g'.Keys == GroupKeys(prefix, field)
    requires forall k :: k in g' ==> g'[k] == Filter(prefix, InGroup(field, k))
    ensures AddToGroup(g', GroupKey(item, field), item).Keys == GroupKeys(prefix + [item], field)
    ensures forall k :: k in AddToGroup(g', GroupKey(item, field), item) ==>
              AddToGroup(g', GroupKey(item, field), item)[k] == Filter(prefix + [item], InGroup(field, k))
  {
    GroupKeysSnoc(prefix, item, field);
    var g := AddToGroup(g', GroupKey(item, field), item);
    forall k | k in g
      ensures g[k] == Filter(prefix + [item], InGroup(field, k))
    {
      GroupStepAt(prefix, item, field, g', k);
    }
  }

  lemma GroupStepAt(prefix: seq<BatteryData>, item: BatteryData, field: TextField, g': map<string, seq<BatteryData>>, k: string)
    requires g'.Keys == GroupKeys(prefix, field)
    requires forall k :: k in g' ==> g'[k] == Filter(prefix, InGroup(field, k))
    requires k in AddToGroup(g', GroupKey(item, field), item)
    ensures AddToGroup(g', GroupKey(item, field), item)[k] == Filter(prefix + [item], InGroup(field, k))
  {
    FilterSnoc(prefix, item, InGroup(field, k));
    if k == GroupKey(item, field) && k !in g' {
      GroupOfAbsentKey(prefix, field, k);
    }
  }

  /** Every item lies in the group of its own key. */
  lemma GroupHoldsItems(data: seq<BatteryData>, field: TextField)
    ensures forall i :: 0 <= i < |data| ==>
              GroupKey(data[i], field) in GroupDataBy(data, field)
              && data[i] in GroupDataBy(data, field)[GroupKey(data[i], field)]
  {
    var g := GroupDataBy(data, field);
    forall i | 0 <= i < |data|
      ensures GroupKey(data[i], field) in g && data[i] in g[GroupKey(data[i], field)]
    {
      var k := GroupKey(data[i], field);
      assert k in GroupKeys(data, field);
      assert InGroup(field, k)(data[i]);
    }
  }

  /** Every group key is the key of some item, and every item's key is a
      group key. */
  lemma GroupKeyWitness(data: seq<BatteryData>, field: TextField, k: string)
    requires k in GroupDataBy(data, field)
    ensures exists j :: 0 <= j < |data| && GroupKey(data[j], field) == k
  {
    assert k in GroupKeys(data, field);
  }

  lemma GroupKeyOf(data: seq<BatteryData>, field: TextField, j: nat)
    requires j < |data|
    ensures GroupKey(data[j], field) in GroupDataBy(data, field)
  {
    assert GroupKey(data[j], field) in GroupKeys(data, field);
  }

  /** Every group is non-empty, and holds only items of its key, so no item
      lies in two groups. */
  lemma GroupsAreHomogeneous(data: seq<BatteryData>, field: TextField)
    ensures forall k :: k in GroupDataBy(data, field) ==>
              |GroupDataBy(data, field)[k]| > 0
              && forall j :: 0 <= j < |GroupDataBy(data, field)[k]| ==> GroupKey(GroupDataBy(data, field)[k][j], field) == k
  {
    var g := GroupDataBy(data, field);
    forall k | k in g
      ensures |g[k]| > 0
    {
      var i :| 0 <= i < |data| && GroupKey(data[i], field) == k;
      assert InGroup(field, k)(data[i]);
      assert data[i] in g[k];
    }
  }

  /** The distinct keys of `data` in order of first occurrence. */
  function KeyList(data: seq<BatteryData>, field: TextField): (ks: seq<string>)
    ensures FirstOccurrences(ks, Map(data, KeyOf(field)))
  {
    Distinct(Map(data, KeyOf(field)))
  }

  /** The number of positions of `ks` holding `k`. */
  function Occurrences(ks: seq<string>, k: string): nat
  {
    if |ks| == 0 then 0
    else Occurrences(ks[..|ks| - 1], k) + (if ks[|ks| - 1] == k then 1 else 0)
  }

  lemma {:induction false} OccurrencesAbsent(ks: seq<string>, k: string)
    requires k !in ks
    ensures Occurrences(ks, k) == 0
  {
    if |ks| > 0 {
      assert ks[..|ks| - 1] <= ks;
      OccurrencesAbsent(ks[..|ks| - 1], k);
    }
  }

  lemma {:induction false} OccurrencesOfDistinct(ks: seq<string>, k: string)
    requires NoDup(ks) && k in ks
    ensures Occurrences(ks, k) == 1
  {
    var prefix := ks[..|ks| - 1];
    assert ks == prefix + [ks[|ks| - 1]];
    if ks[|ks| - 1] == k {
      assert k !in prefix;
      OccurrencesAbsent(prefix, k);
    } else {
      OccurrencesOfDistinct(prefix, k);
    }
  }

  /** The total number of items of `data` under the keys `ks`. */
  function KeyedCount(data: seq<BatteryData>, field: TextField, ks: seq<string>): nat
  {
    if |ks| == 0 then 0
    else KeyedCount(data, field, ks[..|ks| - 1]) + Count(data, InGroup(field, ks[|ks| - 1]))
  }

  lemma {:induction false} KeyedCountEmpty(field: TextField, ks: seq<string>)
    ensures KeyedCount([], field, ks) == 0
  {
    if |ks| > 0 {
      KeyedCountEmpty(field, ks[..|ks| - 1]);
    }
  }

  lemma {:induction false} KeyedCountSnoc(data: seq<BatteryData>, item: BatteryData, field: TextField, ks: seq<string>)
    ensures KeyedCount(data + [item], field, ks) == KeyedCount(data, field, ks) + Occurrences(ks, GroupKey(item, field))
  {
    if |ks| > 0 {
      KeyedCountSnoc(data, item, field, ks[..|ks| - 1]);
      CountSnoc(data, item, InGroup(field, ks[|ks| - 1]));
    }
  }

  /** Counting the items under a duplicate-free list of keys that covers
      every item counts each item once. */
  lemma {:induction false} KeyedCountCovers(data: seq<BatteryData>, field: TextField, ks: seq<string>)
    requires NoDup(ks)
    requires forall i :: 0 <= i < |data| ==> GroupKey(data[i], field) in ks
    ensures KeyedCount(data, field, ks) == |data|
  {
    if |data| == 0 {
      KeyedCountEmpty(field, ks);
    } else {
      var prefix := data[..|data| - 1];
      var item := data[|data| - 1];
      assert data == prefix + [item];
      forall i | 0 <= i < |prefix|
        ensures GroupKey(prefix[i], field) in ks
      {
        assert prefix[i] == data[i];
      }
      KeyedCountCovers(prefix, field, ks);
      KeyedCountSnoc(prefix, item, field, ks);
      OccurrencesOfDistinct(ks, GroupKey(item, field));
    }
  }

  /** The summed sizes of the groups `ks` of `g`. */
  function GroupSizes(g: map<string, seq<BatteryData>>, ks: seq<string>): nat
    requires forall i :: 0 <= i < |ks| ==> ks[i] in g
  {
    if |ks| == 0 then 0 else GroupSizes(g, ks[..|ks| - 1]) + |g[ks[|ks| - 1]]|
  }

  lemma {:induction false} GroupSizesAreCounts(data: seq<BatteryData>, field: TextField, ks: seq<string>)
    requires forall i :: 0 <= i < |ks| ==> ks[i] in GroupDataBy(data, field)
    ensures GroupSizes(GroupDataBy(data, field), ks) == KeyedCount(data, field, ks)
  {
    if |ks| > 0 {
      GroupSizesAreCounts(data, field, ks[..|ks| - 1]);
    }
  }

  /** The groups partition the input: the key list names every group once,
      and the group sizes add up to the number of items. */
  lemma GroupsPartition(data: seq<BatteryData>, field: TextField)
    ensures var g := GroupDataBy(data, field);
      var ks := KeyList(data, field);
      && NoDup(ks)
      && (forall i :: 0 <= i < |ks| ==> ks[i] in g)
      && (forall k :: k in g ==> k in ks)
      && GroupSizes(g, ks) == |data|
  {
    KeyListNamesGroups(data, field);
    KeyListCoversItems(data, field);
    GroupSizesAreCounts(data, field, KeyList(data, field));
    KeyedCountCovers(data, field, KeyList(data, field));
  }

  /** The key list holds exactly the group keys. */
  lemma KeyListNamesGroups(data: seq<BatteryData>, field: TextField)
    ensures var g := GroupDataBy(data, field);
      var ks := KeyList(data, field);
      && (forall i :: 0 <= i < |ks| ==> ks[i] in g)
      && (forall k :: k in g ==> k in ks)
  {
    var g := GroupDataBy(data, field);
    var cells := Map(data, KeyOf(field));
    var ks := KeyList(data, field);
    forall i | 0 <= i < |ks|
      ensures ks[i] in g
    {
      var j :| 0 <= j < |cells| && cells[j] == ks[i];
      GroupKeyOf(data, field, j);
    }
    forall k | k in g
      ensures k in ks
    {
      GroupKeyWitness(data, field, k);
      var j :| 0 <= j < |data| && GroupKey(data[j], field) == k;
      assert cells[j] == k;
    }
  }

  lemma KeyListCoversItems(data: seq<BatteryData>, field: TextField)
    ensures forall i :: 0 <= i < |data| ==> GroupKey(data[i], field) in KeyList(data, field)
  {
    var cells := Map(data, KeyOf(field));
    forall i | 0 <= i < |data|
      ensures GroupKey(data[i], field) in KeyList(data, field)
    {
      assert cells[i] == GroupKey(data[i], field);
    }
  }

  // ----- filterData -----

  /** `Partial<BatteryData>`: a filter value per field, where an omitted
      property reads as `undefined` (`None` for the text fields). */
  datatype PartialData = PartialData(
    battAlias: Cell,
    country: Cell,
    continent: Cell,
    climate: Cell,
    iso_a3: Cell,
    model_series: Cell,
    variable: Cell,
    val: Value,
    descr: Cell,
    cnt_vhcl: Value)

  /** `value === undefined || value === null || value === ''`. */
  predicate Inactive(v: Value)
  {
    v.Undefined? || v.Null? || v == Str("")
  }

  /** `a === b`: NaN equals nothing, not even itself. */
  predicate StrictEquals(a: Value, b: Value)
  {
    match (a, b)
    case (Num(x), Num(y)) => x.Finite? && y.Finite? && x.r == y.r
    case (Str(s), Str(t)) => s == t
    case (Null, Null) => true
    case (Undefined, Undefined) => true
    case _ => false
  }

  /** A text filter value constrains only when truthy, and then the cell
      must be that very string. */
  predicate TextMatches(filter: Cell, cell: Cell)
  {
    Present(filter) ==> cell == filter
  }

  predicate ValueMatches(filter: Value, v: Value)
  {
    !Inactive(filter) ==> StrictEquals(v, filter)
  }

  /** Every entry of the filter object accepts the item. */
  predicate Satisfies(f: PartialData, item: BatteryData)
  {
    && TextMatches(f.battAlias, item.battAlias)
    && TextMatches(f.country, item.country)
    && TextMatches(f.continent, item.continent)
    && TextMatches(f.climate, item.climate)
    && TextMatches(f.iso_a3, item.iso_a3)
    && TextMatches(f.model_series, item.model_series)
    && TextMatches(f.variable, item.variable)
    && ValueMatches(f.val, item.val)
    && TextMatches(f.descr, item.descr)
    && ValueMatches(f.cnt_vhcl, item.cnt_vhcl)
  }

  function Satisfier(f: PartialData): BatteryData -> bool
  {
    (item: BatteryData) => Satisfies(f, item)
  }

  /** `filterData(data, filters)`: an order-preserving subsequence holding
      exactly the items that strictly equal every active filter value. */
  function FilterData(data: seq<BatteryData>, f: PartialData): (r: seq<BatteryData>)
    ensures IsSubseq(r, data)
    ensures forall i :: 0 <= i < |r| ==> Satisfies(f, r[i])
    ensures forall i :: 0 <= i < |data| && Satisfies(f, data[i]) ==> data[i] in r
    ensures |r| == Count(data, Satisfier(f))
  {
    Filter(data, Satisfier(f))
  }

  /** A filter object whose every entry is undefined, null or empty. */
  predicate AllInactive(f: PartialData)
  {
    && !Present(f.battAlias) && !Present(f.country) && !Present(f.continent)
    && !Present(f.climate) && !Present(f.iso_a3) && !Present(f.model_series)
    && !Present(f.variable) && Inactive(f.val) && !Present(f.descr) && Inactive(f.cnt_vhcl)
  }

  /** An all-empty filter object returns the input unchanged. */
  lemma FilterDataInactive(data: seq<BatteryData>, f: PartialData)
    requires AllInactive(f)
    ensures FilterData(data, f) == data
  {
    FilterAll(data, Satisfier(f));
  }

  /** Filtering twice by the same object is filtering once. */
  lemma FilterDataIdempotent(data: seq<BatteryData>, f: PartialData)
    ensures FilterData(FilterData(data, f), f) == FilterData(data, f)
  {
    FilterIdempotent(data, Satisfier(f));
  }

  /** The filter object with only `field` set to `k`. */
  function Only(field: TextField, k: string): PartialData
  {
    var c := Some(k);
    match field
    case BattAlias => PartialData(c, None, None, None, None, None, None, Undefined, None, Undefined)
    case Country => PartialData(None, c, None, None, None, None, None, Undefined, None, Undefined)
    case Continent => PartialData(None, None, c, None, None, None, None, Undefined, None, Undefined)
    case Climate => PartialData(None, None, None, c, None, None, None, Undefined, None, Undefined)
    case IsoA3 => PartialData(None, None, None, None, c, None, None, Undefined, None, Undefined)
    case ModelSeries => PartialData(None, None, None, None, None, c, None, Undefined, None, Undefined)
    case Var => PartialData(None, None, None, None, None, None, c, Undefined, None, Undefined)
    case Descr => PartialData(None, None, None, None, None, None, None, Undefined, c, Undefined)
  }

  /** Filtering on one text field selects the same items as the group of
      that key, for any non-empty key other than the fallback label. */
  lemma FilterDataIsGroup(data: seq<BatteryData>, field: TextField, k: string)
    requires k != "" && k != Unknown
    ensures FilterData(data, Only(field, k)) == Filter(data, InGroup(field, k))
    ensures k in GroupDataBy(data, field) ==> FilterData(data, Only(field, k)) == GroupDataBy(data, field)[k]
    ensures k !in GroupDataBy(data, field) ==> FilterData(data, Only(field, k)) == []
  {
    forall item: BatteryData
      ensures Satisfier(Only(field, k))(item) == InGroup(field, k)(item)
    {
      assert Satisfies(Only(field, k), item) <==> TextAt(item, field) == Some(k);
    }
    FilterExt(data, Satisfier(Only(field, k)), InGroup(field, k));
    if k !in GroupDataBy(data, field) {
      GroupOfAbsentKey(data, field, k);
    }
  }

  // ----- calculateStats -----

  /** The statistics object without `avg`. */
  datatype Stats = Stats(min: real, max: real, sum: real, count: nat)

  /** `typeof item.val === 'number' && !isNaN(item.val)`. */
  predicate HasNumericVal(item: BatteryData)
  {
    IsFiniteNumber(item.val)
  }

  function Numeric(): BatteryData -> bool
  {
    (item: BatteryData) => HasNumericVal(item)
  }

  /** The numeric `val` of an item, 0 for any other. */
  function ValOrZero(item: BatteryData): real
  {
    if HasNumericVal(item) then item.val.n.r else 0.0
  }

  function Identity(x: real): real { x }

  /** The `numericValues` array: the non-NaN numeric vals in input order. */
  function NumericValues(data: seq<BatteryData>): (vs: seq<real>)
    ensures |vs| == Count(data, Numeric())
    ensures Sum(vs, Identity) == Sum(data, ValOrZero)
  {
    var kept := Filter(data, Numeric());
    SumFilter(data, Numeric(), ValOrZero, ValOrZero);
    SumMapIdentity(kept, ValOrZero);
    Map(kept, ValOrZero)
  }

  lemma {:induction false} SumMapIdentity(s: seq<BatteryData>, f: BatteryData -> real)
    ensures Sum(Map(s, f), Identity) == Sum(s, f)
  {
    if |s| > 0 {
      var prefix := s[..|s| - 1];
      assert s == prefix + [s[|s| - 1]];
      MapSnoc(prefix, s[|s| - 1], f);
      assert Map(s, f)[..|s| - 1] == Map(prefix, f);
      SumMapIdentity(prefix, f);
    }
  }

  /** `calculateStats(data)` without `avg`: all zero when no val is a
      non-NaN number; otherwise the count and total of those vals, and a
      minimum and maximum that are among them and bound them all. */
  function CalculateStats(data: seq<BatteryData>): (s: Stats)
    ensures Count(data, Numeric()) == 0 ==> s == Stats(0.0, 0.0, 0.0, 0)
    ensures Count(data, Numeric()) > 0 ==>
              && s.count == Count(data, Numeric())
              && s.sum == Sum(data, ValOrZero)
              && s.min <= s.max
              && (exists i :: 0 <= i < |data| && HasNumericVal(data[i]) && data[i].val.n.r == s.min)
              && (exists i :: 0 <= i < |data| && HasNumericVal(data[i]) && data[i].val.n.r == s.max)
              && (forall i :: 0 <= i < |data| && HasNumericVal(data[i]) ==> s.min <= data[i].val.n.r <= s.max)
  {
    var vs := NumericValues(data);
    if |vs| == 0 then Stats(0.0, 0.0, 0.0, 0)
    else
      var s := Stats(MinOf(vs), MaxOf(vs), Sum(vs, Identity), |vs|);
      NumericValuesBound(data, s.min, s.max);
      NumericValueWitness(data, s.min);
      NumericValueWitness(data, s.max);
      s
  }

  /** A bound on every numeric value bounds every numeric `val`. */
  lemma NumericValuesBound(data: seq<BatteryData>, lo: real, hi: real)
    requires forall j :: 0 <= j < |NumericValues(data)| ==> lo <= NumericValues(data)[j] <= hi
    ensures forall i :: 0 <= i < |data| && HasNumericVal(data[i]) ==> lo <= data[i].val.n.r <= hi
  {
    var kept := Filter(data, Numeric());
    forall i | 0 <= i < |data| && HasNumericVal(data[i])
      ensures lo <= data[i].val.n.r <= hi
    {
      var j :| 0 <= j < |kept| && kept[j] == data[i];
      assert NumericValues(data)[j] == ValOrZero(data[i]);
    }
  }

  /** Every numeric value is the `val` of some item. */
  lemma NumericValueWitness(data: seq<BatteryData>, v: real)
    requires v in NumericValues(data)
    ensures exists i :: 0 <= i < |data| && HasNumericVal(data[i]) && data[i].val.n.r == v
  {
    var kept := Filter(data, Numeric());
    var j :| 0 <= j < |kept| && NumericValues(data)[j] == v;
    var i :| 0 <= i < |data| && data[i] == kept[j];
  }

  /** Count and sum are additive over concatenation. */
  lemma {:induction false} CalculateStatsAppend(a: seq<BatteryData>, b: seq<BatteryData>)
    ensures CalculateStats(a + b).count == CalculateStats(a).count + CalculateStats(b).count
    ensures CalculateStats(a + b).sum == CalculateStats(a).sum + CalculateStats(b).sum
  {
    CountConcat(a, b, Numeric());
    SumConcat(a, b, ValOrZero);
    if Count(a, Numeric()) == 0 {
      SumNoNumeric(a);
    }
    if Count(b, Numeric()) == 0 {
      SumNoNumeric(b);
    }
  }

  /** Without numeric vals the total is zero. */
  lemma {:induction false} SumNoNumeric(s: seq<BatteryData>)
    requires Count(s, Numeric()) == 0
    ensures Sum(s, ValOrZero) == 0.0
  {
    if |s| > 0 {
      var prefix := s[..|s| - 1];
      assert s == prefix + [s[|s| - 1]];
      CountSnoc(prefix, s[|s| - 1], Numeric());
      SumNoNumeric(prefix);
    }
  }

  // ----- prepareMapData -----

  /** One row of the map data without `value` (the average). */
  datatype MapRow = MapRow(iso: string, country: string, continent: string, climate: string, count: nat, total: real)

  /** The row of one non-empty `iso_a3` group. */
  function MapRowOf(iso: string, items: seq<BatteryData>): MapRow
    requires |items| > 0
  {
    MapRow(
      iso,
      OrDefault(items[0].country, Unknown),
      OrDefault(items[0].continent, Unknown),
      OrDefault(items[0].climate, Unknown),
      |items|,
      CalculateStats(items).sum)
  }

  /** `prepareMapData(data)`, keyed by ISO code: one row per `iso_a3` group
      with the group's size, the total of its numeric vals and the texts of
      its first item. */
  function PrepareMapData(data: seq<BatteryData>): (rows: map<string, MapRow>)
    ensures rows.Keys == GroupKeys(data, IsoA3)
    ensures forall k :: k in rows ==>
              var items := Filter(data, InGroup(IsoA3, k));
              && |items| > 0
              && rows[k].iso == k
              && rows[k].count == Count(data, InGroup(IsoA3, k))
              && rows[k].total == Sum(items, ValOrZero)
              && rows[k].country == OrDefault(items[0].country, Unknown)
              && rows[k].continent == OrDefault(items[0].continent, Unknown)
              && rows[k].climate == OrDefault(items[0].climate, Unknown)
  {
    var g := GroupDataBy(data, IsoA3);
    GroupsAreHomogeneous(data, IsoA3);
    map k | k in g :: MapRowOf(k, g[k])
  }

  /** The row counts add up to the number of items. */
  lemma MapRowCounts(data: seq<BatteryData>)
    ensures var rows := PrepareMapData(data);
      var ks := KeyList(data, IsoA3);
      && (forall i :: 0 <= i < |ks| ==> ks[i] in rows)
      && KeyedCount(data, IsoA3, ks) == |data|
  {
    GroupsPartition(data, IsoA3);
    GroupSizesAreCounts(data, IsoA3, KeyList(data, IsoA3));
  }
}
