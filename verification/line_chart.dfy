/** The selection state of the line chart
    (`src/components/charts/LineChartComponent.tsx`): the rows it draws and
    the series keys the user has switched on. */
module LineChart {
  import opened Seqs

  /** The keys other than `key`. */
  function Except(key: string): string -> bool
  {
    (k: string) => k != key
  }

  /** `toggleDataKey(key)` as written: an absent key is
      appended; a present key is removed, every occurrence of it, but only
      when the selection holds more than one entry. */
  function ToggleDataKey(selected: seq<string>, key: string): (r: seq<string>)
    ensures key !in selected ==> r == selected + [key]
    ensures key in selected && |selected| <= 1 ==> r == selected
    ensures key in selected && |selected| > 1 ==>
              && key !in r
              && IsSubseq(r, selected)
              && (forall k :: k in r <==> k in selected && k != key)
              && |r| == Count(selected, Except(key))
  {
    if key in selected then
      if |selected| > 1 then Filter(selected, Except(key)) else selected
    else
      selected + [key]
  }

  /** The guard counts entries, not distinct keys: a selection holding one
      key twice is emptied by toggling that key. */
  lemma ToggleEmptiesDuplicatedKey()
    ensures ToggleDataKey(["a", "a"], "a") == []
  {
  }

  /** On a selection of distinct keys the guard does what it intends: a
      non-empty selection stays non-empty, and stays distinct. */
  lemma ToggleOnDistinct(selected: seq<string>, key: string)
    requires NoDup(selected)
    ensures NoDup(ToggleDataKey(selected, key))
    ensures |selected| > 0 ==> |ToggleDataKey(selected, key)| > 0
  {
    if key in selected && |selected| > 1 {
      FilterNoDup(selected, Except(key));
      var other := if selected[0] != key then selected[0] else selected[1];
      assert other in selected && other != key;
    }
  }

  /** Toggling an absent key twice restores a non-empty selection. */
  lemma ToggleTwice(selected: seq<string>, key: string)
    requires key !in selected && |selected| > 0
    ensures ToggleDataKey(ToggleDataKey(selected, key), key) == selected
  {
    FilterSnoc(selected, key, Except(key));
    FilterAll(selected, Except(key));
  }

  /** The toggle with the guard it evidently intends: a present key is
      removed unless nothing would remain. */
  function ToggleDataKeyGuarded(selected: seq<string>, key: string): (r: seq<string>)
    ensures |selected| > 0 ==> |r| > 0
    ensures key !in selected ==> r == selected + [key]
    ensures key in selected ==>
              || r == selected
              || (&& key !in r
                  && IsSubseq(r, selected)
                  && (forall k :: k in r <==> k in selected && k != key)
                  && |r| == Count(selected, Except(key)))
    ensures key in selected && (exists i :: 0 <= i < |selected| && selected[i] != key) ==> key !in r
  {
    if key in selected then
      var rest := Filter(selected, Except(key));
      if |rest| > 0 then rest else selected
    else
      selected + [key]
  }

  /** On distinct keys the guarded toggle agrees with the one as written. */
  lemma GuardedAgreesOnDistinct(selected: seq<string>, key: string)
    requires NoDup(selected)
    ensures ToggleDataKeyGuarded(selected, key) == ToggleDataKey(selected, key)
  {
    if key in selected {
      var rest := Filter(selected, Except(key));
      if |selected| > 1 {
        var other := if selected[0] != key then selected[0] else selected[1];
        assert other in selected && other != key;
        assert other in rest;
      } else {
        assert selected == [key];
      }
    }
  }

  /** The guarded toggle keeps a selection distinct. */
  lemma GuardedKeepsDistinct(selected: seq<string>, key: string)
    requires NoDup(selected)
    ensures NoDup(ToggleDataKeyGuarded(selected, key))
  {
    GuardedAgreesOnDistinct(selected, key);
    ToggleOnDistinct(selected, key);
  }

  // ----- The chart's state -----

  /** At most this many rows are drawn (`data.slice(0, 20)`). */
  const RowLimit := 20

  datatype ChartState<T> = ChartState(rows: seq<T>, selected: seq<string>)

  /** The state on mount: no rows, every given key selected. */
  function Initial<T>(dataKeys: seq<string>): ChartState<T>
  {
    ChartState([], dataKeys)
  }

  /** The `useEffect` on `[data, dataKeys]`: empty
      data changes nothing; otherwise the first rows are kept and the
      selection is reset to the given keys. */
  function OnData<T>(s: ChartState<T>, data: seq<T>, dataKeys: seq<string>): (s': ChartState<T>)
    ensures |data| == 0 ==> s' == s
    ensures |data| > 0 ==> s'.selected == dataKeys
    ensures |data| > 0 ==> |s'.rows| <= RowLimit && |s'.rows| <= |data| && s'.rows == data[..|s'.rows|]
    ensures |data| > 0 ==> |s'.rows| == |data| || |s'.rows| == RowLimit
  {
    if |data| == 0 then s
    else ChartState(data[..if |data| < RowLimit then |data| else RowLimit], dataKeys)
  }

  function OnToggle<T>(s: ChartState<T>, key: string): (s': ChartState<T>)
    ensures s'.rows == s.rows
  {
    s.(selected := ToggleDataKeyGuarded(s.selected, key))
  }

  datatype Event<T> = DataChanged(data: seq<T>, dataKeys: seq<string>) | Toggled(key: string)

  function Step<T>(s: ChartState<T>, e: Event<T>): ChartState<T>
  {
    match e
    case DataChanged(data, keys) => OnData(s, data, keys)
    case Toggled(key) => OnToggle(s, key)
  }

  function Run<T>(s: ChartState<T>, events: seq<Event<T>>): ChartState<T>
    decreases |events|
  {
    if |events| == 0 then s else Run(Step(s, events[0]), events[1..])
  }

  /** The same machine with the toggle as written. */
  function StepAsWritten<T>(s: ChartState<T>, e: Event<T>): ChartState<T>
  {
    match e
    case DataChanged(data, keys) => OnData(s, data, keys)
    case Toggled(key) => s.(selected := ToggleDataKey(s.selected, key))
  }

  function RunAsWritten<T>(s: ChartState<T>, events: seq<Event<T>>): ChartState<T>
    decreases |events|
  {
    if |events| == 0 then s else RunAsWritten(StepAsWritten(s, events[0]), events[1..])
  }

  /** A usable key list: non-empty and without repetitions. */
  ghost predicate GoodKeys(keys: seq<string>)
  {
    |keys| > 0 && NoDup(keys)
  }

  /** What every reachable state keeps: a bounded row list and a non-empty
      selection of distinct keys. */
  ghost predicate Valid<T>(s: ChartState<T>)
  {
    |s.rows| <= RowLimit && GoodKeys(s.selected)
  }

  ghost predicate GoodEvents<T>(events: seq<Event<T>>)
  {
    forall i :: 0 <= i < |events| && events[i].DataChanged? ==> GoodKeys(events[i].dataKeys)
  }

  lemma StepValid<T>(s: ChartState<T>, e: Event<T>)
    requires Valid(s)
    requires e.DataChanged? ==> GoodKeys(e.dataKeys)
    ensures Valid(Step(s, e))
  {
    if e.Toggled? {
      GuardedKeepsDistinct(s.selected, e.key);
    }
  }

  /** Whatever data and toggles arrive, a chart started with good keys
      never shows more than twenty rows and never loses its last series. */
  lemma {:induction false} RunValid<T>(dataKeys: seq<string>, events: seq<Event<T>>)
    requires GoodKeys(dataKeys) && GoodEvents(events)
    ensures Valid(Run(Initial<T>(dataKeys), events))
  {
    RunFrom(Initial<T>(dataKeys), events);
  }

  lemma {:induction false} RunFrom<T>(s: ChartState<T>, events: seq<Event<T>>)
    requires Valid(s) && GoodEvents(events)
    ensures Valid(Run(s, events))
    decreases |events|
  {
    if |events| > 0 {
      StepValid(s, events[0]);
      GoodEventsTail(events);
      RunFrom(Step(s, events[0]), events[1..]);
    }
  }

  lemma GoodEventsTail<T>(events: seq<Event<T>>)
    requires |events| > 0 && GoodEvents(events)
    ensures GoodEvents(events[1..])
  {
    forall i | 0 <= i < |events[1..]| && events[1..][i].DataChanged?
      ensures GoodKeys(events[1..][i].dataKeys)
    {
      assert events[1..][i] == events[i + 1];
    }
  }

  /** With good keys the component as written behaves as the guarded
      machine, so it too keeps at most twenty rows and a non-empty,
      distinct selection: the duplicated-key case needs repeated keys. */
  lemma {:induction false} AsWrittenRunValid<T>(dataKeys: seq<string>, events: seq<Event<T>>)
    requires GoodKeys(dataKeys) && GoodEvents(events)
    ensures RunAsWritten(Initial<T>(dataKeys), events) == Run(Initial<T>(dataKeys), events)
    ensures Valid(RunAsWritten(Initial<T>(dataKeys), events))
  {
    AsWrittenFrom(Initial<T>(dataKeys), events);
    RunFrom(Initial<T>(dataKeys), events);
  }

  lemma {:induction false} AsWrittenFrom<T>(s: ChartState<T>, events: seq<Event<T>>)
    requires Valid(s) && GoodEvents(events)
    ensures RunAsWritten(s, events) == Run(s, events)
    decreases |events|
  {
    if |events| > 0 {
      var e := events[0];
      if e.Toggled? {
        GuardedAgreesOnDistinct(s.selected, e.key);
      }
      assert StepAsWritten(s, e) == Step(s, e);
      StepValid(s, e);
      GoodEventsTail(events);
      AsWrittenFrom(Step(s, e), events[1..]);
    }
  }
}
