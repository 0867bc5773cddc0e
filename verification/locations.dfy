/** The favourites store of `src/store/locations.ts` as pure transitions over
    its state: the saved city names, the last classified error, the loading
    flag, and the browser storage the list is mirrored into. */
module Locations {
  import opened Wrappers
  import opened Seqs
  import opened ErrorHandler
  import opened LocalStorage
  import WeatherApi

  const SavedLocationsKey := "savedLocations"

  datatype Store = Store(saved: seq<string>, error: Option<ErrorResponse>, loading: bool, storage: map<string, seq<string>>)

  /** The store as it is created: an empty list, no error, not loading. */
  function Initial(storage: map<string, seq<string>>): (s: Store)
    ensures s.saved == [] && s.error.None? && !s.loading && s.storage == storage
  {
    Store([], None, false, storage)
  }

  /** The state after an action, and the `ErrorResponse` it threw, if any. */
  datatype Outcome = Outcome(store: Store, thrown: Option<ErrorResponse>)

  /** The stored list equals the in-memory one. */
  predicate Mirrored(s: Store) {
    SavedLocationsKey in s.storage && s.storage[SavedLocationsKey] == s.saved
  }

  /** `isLocationSaved`. */
  function IsLocationSaved(s: Store, city: string): (r: bool)
    ensures r <==> exists i :: 0 <= i < |s.saved| && s.saved[i] == city
  {
    city in s.saved
  }

  /** `loadSavedLocations`: with nothing stored the list stays; otherwise the
      stored list replaces it wholesale, unless parsing it throws, in which
      case the list stays and the error is classified. `parseFailure` is the
      value `JSON.parse` throws on the stored text, if it does. */
  function LoadSavedLocations(s: Store, parseFailure: Option<ThrownError>): (r: Store)
    ensures r.loading == s.loading && r.storage == s.storage
    ensures SavedLocationsKey !in s.storage ==> r == s
    ensures SavedLocationsKey in s.storage && parseFailure.None? ==>
      r == s.(saved := s.storage[SavedLocationsKey])
    ensures SavedLocationsKey in s.storage && parseFailure.Some? ==>
      r == s.(error := Some(HandleError(parseFailure.value)))
  {
    if SavedLocationsKey !in s.storage then s
    else match parseFailure
      case Some(e) => s.(error := Some(HandleError(e)))
      case None => s.(saved := s.storage[SavedLocationsKey])
  }

  /** `addLocation`: the city is looked up first. If the lookup throws, the
      list and storage stay, the classified error is recorded and thrown.
      Otherwise the city is appended and the list written back only when it
      was absent; a throwing write leaves the appended list in memory but
      not in storage, and is classified and thrown like a failed lookup.
      Whatever happens, `loading` is false afterwards. */
  function AddLocation(s: Store, city: string, lookup: WeatherApi.Fetched<WeatherApi.WeatherData>, write: Write): (r: Outcome)
    ensures !r.store.loading
    ensures r.thrown.Some? ==> r.store.error == r.thrown
    ensures !lookup.IsOk() ==>
      && r.store.saved == s.saved && r.store.storage == s.storage
      && r.thrown == Some(HandleError(WeatherApi.GetWeatherByCity(city, lookup).result.error))
    ensures lookup.IsOk() ==> city in r.store.saved
    ensures lookup.IsOk() ==> s.saved <= r.store.saved && |r.store.saved| <= |s.saved| + 1
    ensures lookup.IsOk() && city in s.saved ==> r == Outcome(s.(loading := false, error := None), None)
    ensures lookup.IsOk() && city !in s.saved ==> r.store.saved == s.saved + [city]
    ensures lookup.IsOk() && city !in s.saved && write.Written? ==>
      r.thrown.None? && r.store.error.None? && Mirrored(r.store)
    ensures lookup.IsOk() && city !in s.saved && write.WriteThrows? ==>
      r.store.storage == s.storage && r.thrown == Some(HandleError(write.error))
  {
    var lookedUp := WeatherApi.GetWeatherByCity(city, lookup).result;
    if lookedUp.Failure? then
      var err := HandleError(lookedUp.error);
      Outcome(s.(error := Some(err), loading := false), Some(err))
    else if city in s.saved then
      Outcome(s.(error := None, loading := false), None)
    else
      var saved := s.saved + [city];
      match write
      case Written =>
        Outcome(s.(saved := saved, storage := SetItem(s.storage, SavedLocationsKey, saved, write),
                   error := None, loading := false), None)
      case WriteThrows(e) =>
        var err := HandleError(e);
        Outcome(s.(saved := saved, error := Some(err), loading := false), Some(err))
  }

  /** `removeLocation`: every occurrence of the city is filtered out, the
      order of the rest kept, and the list written back. A throwing write
      leaves the filtered list in memory only and is classified and thrown.
      `loading` is not touched. */
  function RemoveLocation(s: Store, city: string, write: Write): (r: Outcome)
    ensures r.store.loading == s.loading
    ensures city !in r.store.saved
    ensures multiset(r.store.saved) == multiset(s.saved)[city := 0]
    ensures SubsequenceOf(r.store.saved, s.saved)
    ensures write.Written? ==> r.thrown.None? && r.store.error.None? && Mirrored(r.store)
    ensures write.WriteThrows? ==>
      r.store.storage == s.storage && r.thrown == Some(HandleError(write.error)) && r.store.error == r.thrown
  {
    var saved := Without(s.saved, city);
    match write
    case Written =>
      Outcome(s.(saved := saved, storage := SetItem(s.storage, SavedLocationsKey, saved, write), error := None), None)
    case WriteThrows(e) =>
      var err := HandleError(e);
      Outcome(s.(saved := saved, error := Some(err)), Some(err))
  }

  // ---------------------------------------------------------------------
  // Properties across operations

  /** A successful add leaves the city saved and no error recorded, whether
      or not it was already present. */
  lemma AddThenSaved(s: Store, city: string, lookup: WeatherApi.Fetched<WeatherApi.WeatherData>)
    requires lookup.IsOk()
    ensures var r := AddLocation(s, city, lookup, Written);
      IsLocationSaved(r.store, city) && r.store.error.None? && r.thrown.None?
  {
  }

  /** Adding never creates a duplicate, whatever the lookup or write does. */
  lemma AddKeepsNoDuplicates(s: Store, city: string, lookup: WeatherApi.Fetched<WeatherApi.WeatherData>, write: Write)
    requires NoDuplicates(s.saved)
    ensures NoDuplicates(AddLocation(s, city, lookup, write).store.saved)
  {
    if lookup.IsOk() && city !in s.saved {
      AppendFreshNoDuplicates(s.saved, city);
    }
  }

  /** Adding a name that is already saved changes neither the list nor the
      storage. */
  lemma AddPresentIsNoChange(s: Store, city: string, lookup: WeatherApi.Fetched<WeatherApi.WeatherData>, write: Write)
    requires city in s.saved
    ensures var r := AddLocation(s, city, lookup, write).store;
      r.saved == s.saved && r.storage == s.storage
  {
  }

  /** A lookup that fails because the response was not ok is always
      reported as an unexpected error: the thrown `Error` has no response and
      its message is not `'Network Error'`. */
  lemma NotFoundLookupIsUnexpected(s: Store, city: string, body: WeatherApi.WeatherData, write: Write)
    ensures AddLocation(s, city, WeatherApi.Received(false, body), write).thrown
      == Some(ErrorResponse(Unexpected, Error, None))
  {
    PlainErrorClassification(WeatherApi.WeatherNotFound);
  }

  /** Removing leaves the city unsaved. */
  lemma RemoveThenNotSaved(s: Store, city: string, write: Write)
    ensures !IsLocationSaved(RemoveLocation(s, city, write).store, city)
  {
  }

  /** Removing is idempotent: a second removal of the same name (with a
      write that lands) leaves the list as it was, and when the first write
      landed too it changes nothing at all and throws nothing. */
  lemma RemoveIdempotent(s: Store, city: string, w1: Write)
    ensures var once := RemoveLocation(s, city, w1).store;
      && RemoveLocation(once, city, Written).store.saved == once.saved
      && (w1.Written? ==> RemoveLocation(once, city, Written) == Outcome(once, None))
  {
    var once := RemoveLocation(s, city, w1).store;
    WithoutIdempotent(s.saved, city);
    if w1.Written? {
      var again := RemoveLocation(once, city, Written).store;
      assert again.storage == once.storage;
    }
  }

  /** Removing a name that is not saved keeps the list as it was, and
      succeeds when the write lands. */
  lemma RemoveAbsentIsNoOp(s: Store, city: string)
    requires city !in s.saved
    ensures var r := RemoveLocation(s, city, Written);
      r.store.saved == s.saved && r.thrown.None?
  {
    WithoutAbsent(s.saved, city);
  }

  /** Removing keeps the list free of duplicates. */
  lemma RemoveKeepsNoDuplicates(s: Store, city: string, write: Write)
    requires NoDuplicates(s.saved)
    ensures NoDuplicates(RemoveLocation(s, city, write).store.saved)
  {
    WithoutNoDuplicates(s.saved, city);
  }

  /** Removing only drops the named city: every other saved name stays. */
  lemma RemoveKeepsOthers(s: Store, city: string, other: string, write: Write)
    requires other != city
    ensures IsLocationSaved(RemoveLocation(s, city, write).store, other) <==> IsLocationSaved(s, other)
  {
    WithoutMembership(s.saved, city, other);
  }

  /** Storing and loading a list round-trips: after a landed write, loading
      restores the written list into a store whose in-memory list has been
      lost, and into a freshly created store over the same storage. */
  lemma SaveLoadRoundTrip(s: Store, city: string, lookup: WeatherApi.Fetched<WeatherApi.WeatherData>)
    requires lookup.IsOk() && city !in s.saved
    ensures var r := AddLocation(s, city, lookup, Written).store;
      && LoadSavedLocations(r.(saved := []), None).saved == r.saved
      && LoadSavedLocations(Initial(r.storage), None) == Initial(r.storage).(saved := r.saved)
  {
  }
}
