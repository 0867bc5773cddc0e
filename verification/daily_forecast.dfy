/** `processDailyForecast` of `src/utils/weatherApi.ts`: forecast points are
    grouped by calendar day in first-seen order; the first point of a day
    seeds its entry and later points of that day only widen `min` and `max`.
    The calendar-day stringification (`new Date(dt * 1000).toDateString()`)
    is an arbitrary key function `dayKey`. */
module DailyForecast {
  import opened Seqs

  /** One element of a `weather` array. */
  datatype Condition = Condition(main: string, description: string)

  /** One element of the forecast `list`: `dt`, `main.temp`,
      `main.temp_min`, `main.temp_max` and `weather`. */
  datatype ForecastPoint = ForecastPoint(dt: int, temp: int, tempMin: int, tempMax: int, weather: seq<Condition>)

  /** One daily entry: `dt`, `temp.day`, `temp.min`, `temp.max`, `weather`. */
  datatype DailyEntry = DailyEntry(dt: int, day: int, min: int, max: int, weather: seq<Condition>)

  /** The insertion-ordered `dailyMap`: `keys[i]` maps to `entries[i]`. */
  datatype DailyMap<K> = DailyMap(keys: seq<K>, entries: seq<DailyEntry>)

  function Min(a: int, b: int): int { if a <= b then a else b }
  function Max(a: int, b: int): int { if a >= b then a else b }

  /** The day key of every point, in list order. */
  function KeysOf<K>(list: seq<ForecastPoint>, dayKey: int -> K): (ks: seq<K>)
    ensures |ks| == |list|
    ensures forall j :: 0 <= j < |list| ==> ks[j] == dayKey(list[j].dt)
  {
    seq(|list|, j requires 0 <= j < |list| => dayKey(list[j].dt))
  }

  /** The entry a day's first point creates. */
  function Seed(p: ForecastPoint): DailyEntry {
    DailyEntry(p.dt, p.temp, p.tempMin, p.tempMax, p.weather)
  }

  /** A later point of the same day folded into its entry. */
  function Widen(e: DailyEntry, p: ForecastPoint): DailyEntry {
    e.(min := Min(e.min, p.tempMin), max := Max(e.max, p.tempMax))
  }

  /** One iteration of the `forEach`: a new key appends a seeded entry, a
      known key widens that key's entry and touches nothing else. */
  function Step<K(==)>(m: DailyMap<K>, k: K, p: ForecastPoint): (r: DailyMap<K>)
    requires |m.keys| == |m.entries|
    ensures |r.keys| == |r.entries|
    ensures k !in m.keys ==> r.keys == m.keys + [k] && r.entries == m.entries + [Seed(p)]
    ensures k in m.keys ==> r.keys == m.keys && |r.entries| == |m.entries|
    ensures k in m.keys ==>
      var i := IndexOf(m.keys, k);
      && r.entries[i].dt == m.entries[i].dt
      && r.entries[i].day == m.entries[i].day
      && r.entries[i].weather == m.entries[i].weather
      && r.entries[i].min == Min(m.entries[i].min, p.tempMin)
      && r.entries[i].max == Max(m.entries[i].max, p.tempMax)
      && forall j :: 0 <= j < |m.entries| && j != i ==> r.entries[j] == m.entries[j]
  {
    var i := IndexOf(m.keys, k);
    if i == |m.keys| then DailyMap(m.keys + [k], m.entries + [Seed(p)])
    else DailyMap(m.keys, m.entries[i := Widen(m.entries[i], p)])
  }

  /** The map after the `forEach` has visited every point of `list`. */
  function Group<K(==)>(list: seq<ForecastPoint>, dayKey: int -> K): (r: DailyMap<K>)
    ensures |r.keys| == |r.entries| <= |list|
    decreases |list|
  {
    if |list| == 0 then DailyMap([], [])
    else
      var n := |list| - 1;
      Step(Group(list[..n], dayKey), dayKey(list[n].dt), list[n])
  }

  /** `processDailyForecast`: the values of the daily map, in insertion order. */
  function ProcessDailyForecast<K(==)>(list: seq<ForecastPoint>, dayKey: int -> K): (r: seq<DailyEntry>)
    ensures |r| <= |list|
    ensures |list| == 0 ==> r == []
  {
    Group(list, dayKey).entries
  }

  // ---------------------------------------------------------------------
  // Declarative description of the daily aggregation

  /** `keys` are the distinct day keys of `list`, each once, ordered by the
      position of the first point carrying them. */
  ghost predicate FirstSeenKeys<K>(list: seq<ForecastPoint>, dayKey: int -> K, keys: seq<K>) {
    FirstSeenOrder(KeysOf(list, dayKey), keys)
  }

  /** Each entry carries `dt`, `temp.day` and `weather` of the first point of
      its day. */
  ghost predicate SeededByFirst<K>(list: seq<ForecastPoint>, dayKey: int -> K, keys: seq<K>, entries: seq<DailyEntry>) {
    && |entries| == |keys|
    && forall i :: 0 <= i < |keys| ==>
         var f := IndexOf(KeysOf(list, dayKey), keys[i]);
         && f < |list|
         && entries[i].dt == list[f].dt
         && entries[i].day == list[f].temp
         && entries[i].weather == list[f].weather
  }

  /** `m` is the least `temp_min` among the points whose day key is `k`. */
  ghost predicate IsDayMin<K>(list: seq<ForecastPoint>, dayKey: int -> K, k: K, m: int) {
    && (exists j :: 0 <= j < |list| && dayKey(list[j].dt) == k && list[j].tempMin == m)
    && (forall j :: 0 <= j < |list| && dayKey(list[j].dt) == k ==> m <= list[j].tempMin)
  }

  /** `m` is the greatest `temp_max` among the points whose day key is `k`. */
  ghost predicate IsDayMax<K>(list: seq<ForecastPoint>, dayKey: int -> K, k: K, m: int) {
    && (exists j :: 0 <= j < |list| && dayKey(list[j].dt) == k && list[j].tempMax == m)
    && (forall j :: 0 <= j < |list| && dayKey(list[j].dt) == k ==> list[j].tempMax <= m)
  }

  /** Each entry's `min`/`max` range over all points of its day. */
  ghost predicate BoundedByDay<K>(list: seq<ForecastPoint>, dayKey: int -> K, keys: seq<K>, entries: seq<DailyEntry>) {
    && |entries| == |keys|
    && forall i :: 0 <= i < |keys| ==>
         IsDayMin(list, dayKey, keys[i], entries[i].min) && IsDayMax(list, dayKey, keys[i], entries[i].max)
  }

  /** The whole promise of the daily aggregation. */
  ghost predicate DailyAggregation<K>(list: seq<ForecastPoint>, dayKey: int -> K, keys: seq<K>, entries: seq<DailyEntry>) {
    && FirstSeenKeys(list, dayKey, keys)
    && SeededByFirst(list, dayKey, keys, entries)
    && BoundedByDay(list, dayKey, keys, entries)
  }

  // ---------------------------------------------------------------------
  // Proof that the fold meets the description

  /** Splitting off the last point: the key sequence of the prefix is the
      prefix of the key sequence, and first occurrences of old keys stay. */
  lemma KeysOfSnoc<K>(list: seq<ForecastPoint>, dayKey: int -> K)
    requires |list| > 0
    ensures KeysOf(list, dayKey) == KeysOf(list[..|list| - 1], dayKey) + [dayKey(list[|list| - 1].dt)]
  {
  }

  lemma StepKeys<K>(list: seq<ForecastPoint>, dayKey: int -> K, m: DailyMap<K>)
    requires |list| > 0
    requires |m.keys| == |m.entries|
    requires FirstSeenKeys(list[..|list| - 1], dayKey, m.keys)
    ensures FirstSeenKeys(list, dayKey, Step(m, dayKey(list[|list| - 1].dt), list[|list| - 1]).keys)
  {
    var n := |list| - 1;
    var k, before := dayKey(list[n].dt), KeysOf(list[..n], dayKey);
    KeysOfSnoc(list, dayKey);
    if k in m.keys {
      FirstSeenOrderSnocKnown(before, k, m.keys);
    } else {
      FirstSeenOrderSnocFresh(before, k, m.keys);
    }
  }

  lemma StepSeeds<K>(list: seq<ForecastPoint>, dayKey: int -> K, m: DailyMap<K>)
    requires |list| > 0
    requires |m.keys| == |m.entries|
    requires FirstSeenKeys(list[..|list| - 1], dayKey, m.keys)
    requires SeededByFirst(list[..|list| - 1], dayKey, m.keys, m.entries)
    ensures var r := Step(m, dayKey(list[|list| - 1].dt), list[|list| - 1]);
      SeededByFirst(list, dayKey, r.keys, r.entries)
  {
    var n := |list| - 1;
    var p, k := list[n], dayKey(list[n].dt);
    var prefix := list[..n];
    var before, all := KeysOf(prefix, dayKey), KeysOf(list, dayKey);
    KeysOfSnoc(list, dayKey);
    var r := Step(m, k, p);
    forall i | 0 <= i < |r.keys|
      ensures var f := IndexOf(all, r.keys[i]);
        && f < |list|
        && r.entries[i].dt == list[f].dt
        && r.entries[i].day == list[f].temp
        && r.entries[i].weather == list[f].weather
    {
      if i < |m.keys| {
        IndexOfSnoc(before, k, m.keys[i]);
        var f := IndexOf(before, m.keys[i]);
        assert list[f] == prefix[f];
      } else {
        assert k !in before;
        IndexOfSnoc(before, k, k);
      }
    }
  }

  /** Bounds of the entry a fresh day key creates: the last point is the
      only point of that day. */
  lemma StepBoundsFresh<K>(list: seq<ForecastPoint>, dayKey: int -> K, m: DailyMap<K>)
    requires |list| > 0
    requires |m.keys| == |m.entries|
    requires FirstSeenKeys(list[..|list| - 1], dayKey, m.keys)
    requires dayKey(list[|list| - 1].dt) !in m.keys
    ensures var n := |list| - 1;
      && IsDayMin(list, dayKey, dayKey(list[n].dt), list[n].tempMin)
      && IsDayMax(list, dayKey, dayKey(list[n].dt), list[n].tempMax)
  {
    var n := |list| - 1;
    var k := dayKey(list[n].dt);
    var prefix := list[..n];
    forall j | 0 <= j < n ensures dayKey(list[j].dt) != k {
      assert list[j] == prefix[j];
    }
  }

  /** Bounds of an entry whose day the last point belongs to: they widen by
      the last point. */
  lemma StepBoundsWiden<K>(list: seq<ForecastPoint>, dayKey: int -> K, key: K, lo: int, hi: int)
    requires |list| > 0
    requires dayKey(list[|list| - 1].dt) == key
    requires IsDayMin(list[..|list| - 1], dayKey, key, lo)
    requires IsDayMax(list[..|list| - 1], dayKey, key, hi)
    ensures var p := list[|list| - 1];
      && IsDayMin(list, dayKey, key, Min(lo, p.tempMin))
      && IsDayMax(list, dayKey, key, Max(hi, p.tempMax))
  {
    var n := |list| - 1;
    var prefix := list[..n];
    var jMin :| 0 <= jMin < n && dayKey(prefix[jMin].dt) == key && prefix[jMin].tempMin == lo;
    var jMax :| 0 <= jMax < n && dayKey(prefix[jMax].dt) == key && prefix[jMax].tempMax == hi;
    assert list[jMin] == prefix[jMin] && list[jMax] == prefix[jMax];
    forall j | 0 <= j < n ensures list[j] == prefix[j] { }
  }

  /** Bounds of an entry whose day the last point does not belong to: they
      are unchanged. */
  lemma StepBoundsOther<K>(list: seq<ForecastPoint>, dayKey: int -> K, key: K, lo: int, hi: int)
    requires |list| > 0
    requires dayKey(list[|list| - 1].dt) != key
    requires IsDayMin(list[..|list| - 1], dayKey, key, lo)
    requires IsDayMax(list[..|list| - 1], dayKey, key, hi)
    ensures IsDayMin(list, dayKey, key, lo) && IsDayMax(list, dayKey, key, hi)
  {
    var n := |list| - 1;
    var prefix := list[..n];
    var jMin :| 0 <= jMin < n && dayKey(prefix[jMin].dt) == key && prefix[jMin].tempMin == lo;
    var jMax :| 0 <= jMax < n && dayKey(prefix[jMax].dt) == key && prefix[jMax].tempMax == hi;
    assert list[jMin] == prefix[jMin] && list[jMax] == prefix[jMax];
    forall j | 0 <= j < n ensures list[j] == prefix[j] { }
  }

  lemma StepBounds<K>(list: seq<ForecastPoint>, dayKey: int -> K, m: DailyMap<K>)
    requires |list| > 0
    requires |m.keys| == |m.entries|
    requires FirstSeenKeys(list[..|list| - 1], dayKey, m.keys)
    requires BoundedByDay(list[..|list| - 1], dayKey, m.keys, m.entries)
    ensures var r := Step(m, dayKey(list[|list| - 1].dt), list[|list| - 1]);
      BoundedByDay(list, dayKey, r.keys, r.entries)
  {
    var n := |list| - 1;
    var p, k := list[n], dayKey(list[n].dt);
    var r := Step(m, k, p);
    if k !in m.keys {
      StepBoundsFresh(list, dayKey, m);
    }
    var i0 := IndexOf(m.keys, k);
    forall i | 0 <= i < |r.keys|
      ensures IsDayMin(list, dayKey, r.keys[i], r.entries[i].min)
      ensures IsDayMax(list, dayKey, r.keys[i], r.entries[i].max)
    {
      if i < |m.keys| {
        var e := m.entries[i];
        if m.keys[i] == k {
          assert i == i0 by {
            assert NoDuplicates(m.keys);
          }
          StepBoundsWiden(list, dayKey, k, e.min, e.max);
        } else {
          StepBoundsOther(list, dayKey, m.keys[i], e.min, e.max);
        }
      }
    }
  }

  /** The daily map's keys are the distinct day keys in first-seen order. */
  lemma {:induction false} GroupFirstSeen<K>(list: seq<ForecastPoint>, dayKey: int -> K)
    ensures FirstSeenKeys(list, dayKey, Group(list, dayKey).keys)
    decreases |list|
  {
    if |list| > 0 {
      var n := |list| - 1;
      GroupFirstSeen(list[..n], dayKey);
      StepKeys(list, dayKey, Group(list[..n], dayKey));
    }
  }

  /** Every entry of the daily map is seeded by its day's first point. */
  lemma {:induction false} GroupSeeded<K>(list: seq<ForecastPoint>, dayKey: int -> K)
    ensures SeededByFirst(list, dayKey, Group(list, dayKey).keys, Group(list, dayKey).entries)
    decreases |list|
  {
    if |list| > 0 {
      var n := |list| - 1;
      GroupSeeded(list[..n], dayKey);
      GroupFirstSeen(list[..n], dayKey);
      StepSeeds(list, dayKey, Group(list[..n], dayKey));
    }
  }

  /** Every entry of the daily map spans the bounds of its day. */
  lemma {:induction false} GroupBounded<K>(list: seq<ForecastPoint>, dayKey: int -> K)
    ensures BoundedByDay(list, dayKey, Group(list, dayKey).keys, Group(list, dayKey).entries)
    decreases |list|
  {
    if |list| > 0 {
      var n := |list| - 1;
      GroupBounded(list[..n], dayKey);
      GroupFirstSeen(list[..n], dayKey);
      StepBounds(list, dayKey, Group(list[..n], dayKey));
    }
  }

  /** The fold over the whole list meets the description: the result of
      `processDailyForecast` is the daily aggregation of `list`, keyed by the
      daily map's keys. */
  lemma GroupCorrect<K>(list: seq<ForecastPoint>, dayKey: int -> K)
    ensures DailyAggregation(list, dayKey, Group(list, dayKey).keys, ProcessDailyForecast(list, dayKey))
  {
    GroupFirstSeen(list, dayKey);
    GroupSeeded(list, dayKey);
    GroupBounded(list, dayKey);
  }

  // ---------------------------------------------------------------------
  // The description determines the result

  /** The daily map has a key exactly for the days some point falls on. */
  lemma GroupKeys<K>(list: seq<ForecastPoint>, dayKey: int -> K, k: K)
    ensures k in Group(list, dayKey).keys <==> k in KeysOf(list, dayKey)
  {
    GroupCorrect(list, dayKey);
    var all := KeysOf(list, dayKey);
    if k in all {
      var j := IndexOf(all, k);
      assert dayKey(list[j].dt) == k;
    }
  }

  /** Only one key sequence lists the distinct day keys in first-seen order:
      the daily map's. */
  lemma FirstSeenKeysUnique<K>(list: seq<ForecastPoint>, dayKey: int -> K, keys: seq<K>)
    requires FirstSeenKeys(list, dayKey, keys)
    ensures keys == Group(list, dayKey).keys
  {
    GroupFirstSeen(list, dayKey);
    FirstSeenOrderUnique(KeysOf(list, dayKey), keys, Group(list, dayKey).keys);
  }

  /** A day has one least `temp_min` and one greatest `temp_max`. */
  lemma DayBoundsUnique<K>(list: seq<ForecastPoint>, dayKey: int -> K, k: K, lo1: int, lo2: int, hi1: int, hi2: int)
    requires IsDayMin(list, dayKey, k, lo1) && IsDayMin(list, dayKey, k, lo2)
    requires IsDayMax(list, dayKey, k, hi1) && IsDayMax(list, dayKey, k, hi2)
    ensures lo1 == lo2 && hi1 == hi2
  {
    var a :| 0 <= a < |list| && dayKey(list[a].dt) == k && list[a].tempMin == lo1;
    var b :| 0 <= b < |list| && dayKey(list[b].dt) == k && list[b].tempMin == lo2;
    var c :| 0 <= c < |list| && dayKey(list[c].dt) == k && list[c].tempMax == hi1;
    var d :| 0 <= d < |list| && dayKey(list[d].dt) == k && list[d].tempMax == hi2;
  }

  /** The description is a complete specification: any keys and entries
      meeting it are exactly the daily map `processDailyForecast` builds. */
  lemma DailyAggregationUnique<K>(list: seq<ForecastPoint>, dayKey: int -> K, keys: seq<K>, entries: seq<DailyEntry>)
    requires DailyAggregation(list, dayKey, keys, entries)
    ensures keys == Group(list, dayKey).keys
    ensures entries == ProcessDailyForecast(list, dayKey)
  {
    FirstSeenKeysUnique(list, dayKey, keys);
    GroupCorrect(list, dayKey);
    var r := ProcessDailyForecast(list, dayKey);
    forall i | 0 <= i < |entries| ensures entries[i] == r[i] {
      DayBoundsUnique(list, dayKey, keys[i], entries[i].min, r[i].min, entries[i].max, r[i].max);
    }
  }

  /** `min <= max` is not promised in general, but it holds for every day
      when every point has `temp_min <= temp_max`. */
  lemma MinAtMostMax<K>(list: seq<ForecastPoint>, dayKey: int -> K)
    requires forall j :: 0 <= j < |list| ==> list[j].tempMin <= list[j].tempMax
    ensures forall e :: e in ProcessDailyForecast(list, dayKey) ==> e.min <= e.max
  {
    var r := ProcessDailyForecast(list, dayKey);
    var keys := Group(list, dayKey).keys;
    GroupCorrect(list, dayKey);
    forall i | 0 <= i < |r| ensures r[i].min <= r[i].max {
      var j :| 0 <= j < |list| && dayKey(list[j].dt) == keys[i] && list[j].tempMin == r[i].min;
    }
  }

  /** A single point with `temp_min > temp_max` yields a day with
      `min > max`: the bound above needs its hypothesis. */
  lemma MinAboveMaxPossible()
    ensures var r := ProcessDailyForecast([ForecastPoint(0, 4, 5, 3, [])], (dt: int) => dt);
      |r| == 1 && r[0].min > r[0].max
  {
    var list := [ForecastPoint(0, 4, 5, 3, [])];
    assert list[..0] == [];
  }

  /** A calendar-day key: the UTC day number of a Unix timestamp. */
  function UtcDay(dt: int): int { dt / 86400 }

  /** Two points of the first UTC day (09:00 and 15:00) give one entry
      seeded by the first and spanning 10..20. */
  lemma OneDayExample()
    ensures Group([ForecastPoint(32400, 12, 10, 15, []), ForecastPoint(54000, 18, 12, 20, [])], UtcDay)
      == DailyMap([0], [DailyEntry(32400, 12, 10, 20, [])])
  {
    var p0, p1 := ForecastPoint(32400, 12, 10, 15, []), ForecastPoint(54000, 18, 12, 20, []);
    assert [p0, p1][..1] == [p0] && [p0][..0] == [];
    assert UtcDay(32400) == 0 && UtcDay(54000) == 0;
    assert Group([p0], UtcDay) == DailyMap([0], [Seed(p0)]);
  }

  /** A third point on the next day (09:00) opens a second entry after the
      first. */
  lemma TwoDayExample()
    ensures var r := ProcessDailyForecast([
        ForecastPoint(32400, 12, 10, 15, []),
        ForecastPoint(54000, 18, 12, 20, []),
        ForecastPoint(118800, 7, 5, 9, [])], UtcDay);
      && |r| == 2
      && r[0] == DailyEntry(32400, 12, 10, 20, [])
      && r[1] == DailyEntry(118800, 7, 5, 9, [])
  {
    var p0, p1, p2 := ForecastPoint(32400, 12, 10, 15, []), ForecastPoint(54000, 18, 12, 20, []), ForecastPoint(118800, 7, 5, 9, []);
    OneDayExample();
    assert [p0, p1, p2][..2] == [p0, p1];
    assert UtcDay(118800) == 1;
  }
}
