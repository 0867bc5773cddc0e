/** The preferences store of `src/store/userPreferences.ts`: one record,
    replaced wholesale on save and on a load that finds a stored value. */
module UserPreferences {
  import opened Wrappers
  import opened ErrorHandler
  import opened LocalStorage

  const PreferencesKey := "userPreferences"

  /** The preferences record. `temperatureUnit` is meant to be `'celsius'`
      or `'fahrenheit'` but, as in the store, any string is accepted. */
  datatype Preferences = Preferences(userName: string, email: string, phone: string, temperatureUnit: string)

  datatype PreferencesStore = PreferencesStore(preferences: Preferences, storage: map<string, Preferences>)

  /** The state after `savePreferences`, and what it threw, if anything. */
  datatype Saved = Saved(store: PreferencesStore, thrown: Option<ThrownError>)

  /** The record the store starts with. */
  function Default(): (p: Preferences)
    ensures p.userName == "" && p.email == "" && p.phone == ""
    ensures p.temperatureUnit == "celsius"
  {
    Preferences("", "", "", "celsius")
  }

  /** The store as it is created over the current storage. */
  function Initial(storage: map<string, Preferences>): (s: PreferencesStore)
    ensures s.preferences == Default() && s.storage == storage
  {
    PreferencesStore(Default(), storage)
  }

  /** `loadPreferences`: nothing stored leaves the record as it is; a stored
      record replaces it. `parseFailure` is the value `JSON.parse` throws on
      the stored text, if it does; it is not caught and reaches the caller
      with the record unchanged. Storage is never written. */
  function LoadPreferences(s: PreferencesStore, parseFailure: Option<ThrownError>): (r: Result<PreferencesStore, ThrownError>)
    ensures PreferencesKey !in s.storage ==> r == Success(s)
    ensures PreferencesKey in s.storage && parseFailure.None? ==>
      r.Success? && r.value.preferences == s.storage[PreferencesKey]
    ensures PreferencesKey in s.storage && parseFailure.Some? ==> r == Failure(parseFailure.value)
    ensures r.Success? ==> r.value.storage == s.storage
  {
    if PreferencesKey !in s.storage then Success(s)
    else match parseFailure
      case Some(e) => Failure(e)
      case None => Success(s.(preferences := s.storage[PreferencesKey]))
  }

  /** `savePreferences`: the in-memory record becomes `p` before the write;
      a landed write stores `p` under `'userPreferences'` and no other key
      changes; a throwing write leaves storage unchanged and is rethrown. */
  function SavePreferences(s: PreferencesStore, p: Preferences, write: Write): (r: Saved)
    ensures r.store.preferences == p
    ensures write.Written? ==> r.thrown.None? && PreferencesKey in r.store.storage && r.store.storage[PreferencesKey] == p
    ensures forall k :: k in s.storage && k != PreferencesKey ==> k in r.store.storage && r.store.storage[k] == s.storage[k]
    ensures r.store.storage.Keys <= s.storage.Keys + {PreferencesKey}
    ensures write.WriteThrows? ==> r.store.storage == s.storage && r.thrown == Some(write.error)
  {
    var next := s.(preferences := p, storage := SetItem(s.storage, PreferencesKey, p, write));
    match write
    case Written => Saved(next, None)
    case WriteThrows(e) => Saved(next, Some(e))
  }

  /** Saving then loading gives back the saved record, even in a fresh store
      that starts from the defaults. */
  lemma SaveLoadRoundTrip(s: PreferencesStore, p: Preferences)
    ensures var saved := SavePreferences(s, p, Written).store;
      && LoadPreferences(saved, None) == Success(saved)
      && LoadPreferences(Initial(saved.storage), None) == Success(saved)
  {
  }

  /** Loading twice is the same as loading once. */
  lemma LoadIdempotent(s: PreferencesStore)
    ensures var once := LoadPreferences(s, None);
      once.Success? && LoadPreferences(once.value, None) == once
  {
  }
}
