# Weather client core, modelled in Dafny

This project models the sequential logic of a small Vue weather client: the
weather client's response handling and daily forecast aggregation
(`src/utils/weatherApi.ts`), the error classifier
(`src/utils/errorHandler.ts`), the favourite-locations store
(`src/store/locations.ts`) and the user-preferences store
(`src/store/userPreferences.ts`).

The model is functional. Network calls, storage writes and JSON parsing become
explicit inputs that say what happened:

- `Fetched<T>` says what awaiting `fetch` and `response.json()` produced.
  It is either a response with its `ok` flag and parsed body, or a rejection
  carrying the thrown value. The flag and the body are separate because
  `searchCities` parses the body without looking at `ok`.
- `Write` is the outcome of `localStorage.setItem`: `Written` or
  `WriteThrows(e)`.
- A parse failure is an optional thrown value.

Each operation returns its new state, and each weather operation also returns
the requests it issued. That makes "the forecast is never requested" a
statement about the result. Storage is a typed map, because JSON
serialisation is taken to be the identity. The calendar-date key
(`new Date(dt * 1000).toDateString()`) is an arbitrary function `dayKey`
given as a parameter.

Modules, one per source file, plus shared helpers:

- `Wrappers`: `Option` and `Result`.
- `Seqs`: duplicate freedom, first-occurrence lookup, filtering, subsequence,
  and the first-seen order that a JavaScript `Map` keeps for its keys.
- `ErrorHandler`: `handleError`.
- `LocalStorage`: `setItem`.
- `DailyForecast`: `processDailyForecast`, with a declarative description
  (`DailyAggregation`) and proofs that the fold meets it and that only one
  result meets it.
- `WeatherApi`: `getWeatherByCity`, `getWeatherByCoords`, `searchCities`,
  `getDetailedWeather` and the hourly slice.
- `Locations`: the favourites store.
- `UserPreferences`: the preferences store.

## Model

| member | source | states |
|---|---|---|
| `Seqs.IndexOf` | src/utils/weatherApi.ts:157-168 | the `Map` lookup returns the least position holding the key, or the length when the key is absent |
| `Seqs.Without` | src/store/locations.ts:42 | filtering removes every occurrence of the name, keeps each other name with its multiplicity, and keeps their order (a subsequence) |
| `Seqs.WithoutIdempotent` | src/store/locations.ts:42 | filtering the same name twice equals filtering it once |
| `Seqs.WithoutAbsent` | src/store/locations.ts:42 | filtering out a name that is absent returns the list unchanged |
| `Seqs.WithoutNoDuplicates` | src/store/locations.ts:42 | filtering keeps a duplicate-free list duplicate-free |
| `ErrorHandler.HandleError` | src/utils/errorHandler.ts:8-43 | the classifier is total; 404 gives 'City not found', 401 gives 'API key invalid', any other status with a response gives 'Something went wrong'; no response with message 'Network Error' gives the connection warning; anything else gives 'An unexpected error occurred'; the severity is a warning exactly in the network case; no duration is set |
| `ErrorHandler.ResponseTakesPrecedence` | src/utils/errorHandler.ts:10-36 | an error with a response is never the network warning, even when its message is 'Network Error' |
| `ErrorHandler.MessageDeterminesSeverity` | src/utils/errorHandler.ts:2-6 | two classifications with the same message are the same `ErrorResponse` |
| `ErrorHandler.PlainErrorClassification` | src/utils/errorHandler.ts:31-42 | a `new Error(m)` is the warning when `m` is 'Network Error' and the unexpected error otherwise |
| `LocalStorage.SetItem` | src/store/locations.ts:29 | a landed write stores the value under its key and changes no other key; a throwing write changes nothing |
| `DailyForecast.Step` | src/utils/weatherApi.ts:154-171 | one iteration either appends a seeded entry for a new key, or widens only `min`/`max` of the entry of a known key, leaving `dt`, `temp.day`, `weather` and all other entries as they were |
| `DailyForecast.Group` | src/utils/weatherApi.ts:152-172 | the map after the loop has as many keys as values and at most one key per point |
| `DailyForecast.ProcessDailyForecast` | src/utils/weatherApi.ts:151-175 | the result has at most one entry per point and is empty for an empty input (what the entries are is stated by `GroupCorrect` and `DailyAggregationUnique`) |
| `Seqs.FirstSeenOrderSnocKnown` | src/utils/weatherApi.ts:157-158 | a point whose day is already a key leaves the key order as it was |
| `Seqs.FirstSeenOrderSnocFresh` | src/utils/weatherApi.ts:157-159 | a point on a new day appends that day to the key order |
| `Seqs.FirstSeenOrderDropKnown` | src/utils/weatherApi.ts:157-158 | conversely, dropping a final point whose day occurred before keeps the key order |
| `Seqs.FirstSeenOrderFreshIsLast` | src/utils/weatherApi.ts:157-159 | when the final point opens a new day, that day is the last key |
| `Seqs.FirstSeenOrderDropFresh` | src/utils/weatherApi.ts:157-159 | dropping that final point and its day leaves the key order of the rest |
| `Seqs.FirstSeenOrderUnique` | src/utils/weatherApi.ts:152-174 | a sequence of day keys has exactly one first-seen key order |
| `DailyForecast.GroupFirstSeen` | src/utils/weatherApi.ts:152-174 | the map's keys are the distinct day keys, each once, ordered by the first point of each day |
| `DailyForecast.GroupSeeded` | src/utils/weatherApi.ts:157-166 | every entry carries `dt`, `temp.day` and `weather` of its day's first point |
| `DailyForecast.GroupBounded` | src/utils/weatherApi.ts:157-170 | every entry's `min`/`max` are the least `temp_min` and greatest `temp_max` over all points of its day |
| `DailyForecast.GroupKeys` | src/utils/weatherApi.ts:155-158 | the map has a key for a day exactly when some point falls on that day |
| `DailyForecast.GroupCorrect` | src/utils/weatherApi.ts:152-174 | the fold meets the daily description for every input and key function |
| `DailyForecast.StepKeys` | src/utils/weatherApi.ts:157-158 | one iteration keeps the keys distinct, covering and in first-seen order |
| `DailyForecast.StepSeeds` | src/utils/weatherApi.ts:157-166 | one iteration keeps every entry's `dt`, `temp.day` and `weather` equal to its day's first point |
| `DailyForecast.StepBounds` | src/utils/weatherApi.ts:162-170 | one iteration keeps every entry's `min`/`max` equal to the least `temp_min` and greatest `temp_max` of its day |
| `DailyForecast.FirstSeenKeysUnique` | src/utils/weatherApi.ts:152-174 | only one key sequence lists the distinct day keys in first-seen order, so the entries correspond one to one to the distinct days |
| `DailyForecast.DailyAggregationUnique` | src/utils/weatherApi.ts:151-175 | any keys and entries meeting the daily description are exactly the result, so the description is a complete specification |
| `DailyForecast.MinAtMostMax` | src/utils/weatherApi.ts:162-170 | when every point has `temp_min <= temp_max`, every daily entry has `min <= max` |
| `DailyForecast.MinAboveMaxPossible` | src/utils/weatherApi.ts:162-163 | without that hypothesis a day can have `min > max` |
| `DailyForecast.OneDayExample` | src/utils/weatherApi.ts:157-170 | two points of one UTC day give one entry, seeded by the first and spanning 10..20 |
| `DailyForecast.TwoDayExample` | src/utils/weatherApi.ts:151-175 | two points on one day and one on the next give two entries in day order, spanning 10..20 and 5..9 |
| `WeatherApi.Lookup` | src/utils/weatherApi.ts:57-68 | one request; success exactly on an ok response, with its body; a non-ok response throws 'Weather data not found'; a rejection is rethrown unchanged |
| `WeatherApi.GetWeatherByCity` | src/utils/weatherApi.ts:57-68 | exactly one request, the city lookup; success exactly on an ok response, returning its parsed body; a non-ok response throws 'Weather data not found'; a rejection is rethrown unchanged |
| `WeatherApi.GetWeatherByCoords` | src/utils/weatherApi.ts:70-83 | exactly one request, the coordinate lookup; success exactly on an ok response, returning its parsed body; a non-ok response throws 'Weather data not found'; a rejection is rethrown unchanged |
| `WeatherApi.SearchCities` | src/utils/weatherApi.ts:85-108 | a query under three characters gives `[]` with no request; otherwise exactly one request; a non-empty result only comes from a parsed body whose code is not '400'/'404', and is its `list` unchanged |
| `WeatherApi.SearchIssuesOneRequest` | src/utils/weatherApi.ts:92-107 | a query of three or more characters issues one request and returns either `[]` or the body's list |
| `WeatherApi.Hourly` | src/utils/weatherApi.ts:135 | the hourly slice is a prefix of the forecast of length `min(8, length)` |
| `WeatherApi.GetDetailedWeather` | src/utils/weatherApi.ts:110-149 | a failing current answer fails ('City not found' or the rejection) with only the current request issued; after an ok current answer the forecast is requested, and a non-ok one fails with 'Failed to fetch forecast'; success exactly when both are ok, with the current body, the 8-prefix of the forecast and the daily aggregation of the whole forecast list |
| `WeatherApi.CurrentFailureTakesPrecedence` | src/utils/weatherApi.ts:113-130 | a failing current answer decides the outcome whatever the forecast answer would be |
| `Locations.Initial` | src/store/locations.ts:7-9 | the store is created with an empty list, no error, not loading, over the existing storage |
| `Locations.IsLocationSaved` | src/store/locations.ts:51-53 | true exactly when some saved entry equals the name |
| `Locations.LoadSavedLocations` | src/store/locations.ts:11-20 | nothing stored leaves the store as it is; a stored list replaces the in-memory list wholesale; a parse failure leaves the list and records the classified error |
| `Locations.AddLocation` | src/store/locations.ts:22-38 | `loading` ends false; a failed lookup leaves list and storage and throws the recorded classified error; a successful lookup leaves the name saved, extends the list by at most that name, appends only when absent and then mirrors it into storage with no error; a throwing write keeps storage and throws the classified error |
| `Locations.AddThenSaved` | src/store/locations.ts:22-31 | after a successful add the name is saved and no error is recorded |
| `Locations.AddKeepsNoDuplicates` | src/store/locations.ts:25-30 | adding keeps the list free of duplicates, whatever the lookup and write do |
| `Locations.AddPresentIsNoChange` | src/store/locations.ts:27-30 | adding a saved name changes neither list nor storage |
| `Locations.NotFoundLookupIsUnexpected` | src/store/locations.ts:25-34 | a lookup that fails on a non-ok response is always classified 'An unexpected error occurred' |
| `Locations.RemoveLocation` | src/store/locations.ts:40-49 | the name is gone, each other name keeps its multiplicity and order, a landed write mirrors the list with no error, and a throwing write keeps storage and throws the classified error |
| `Locations.RemoveThenNotSaved` | src/store/locations.ts:42 | after removal the name is not saved |
| `Locations.RemoveIdempotent` | src/store/locations.ts:40-45 | removing a name a second time leaves the list as it was; when both writes land, the second removal changes nothing in the store and throws nothing |
| `Locations.RemoveAbsentIsNoOp` | src/store/locations.ts:40-45 | removing a name that is not saved keeps the list and succeeds |
| `Locations.RemoveKeepsNoDuplicates` | src/store/locations.ts:42 | removing keeps the list free of duplicates |
| `Locations.RemoveKeepsOthers` | src/store/locations.ts:42 | removing only drops the named city; every other name stays saved or unsaved as before |
| `Locations.SaveLoadRoundTrip` | src/store/locations.ts:7-29 | after an add that wrote the list, loading restores that list, both into a store that lost its list and into a freshly created store over the same storage |
| `UserPreferences.Default` | src/store/userPreferences.ts:5-10 | the initial record has empty name, email and phone and unit 'celsius' |
| `UserPreferences.Initial` | src/store/userPreferences.ts:5-10 | the store starts with the default record over the existing storage |
| `UserPreferences.LoadPreferences` | src/store/userPreferences.ts:13-18 | nothing stored leaves the store unchanged; a stored record replaces the whole record; a parse failure reaches the caller; storage is never written |
| `UserPreferences.SavePreferences` | src/store/userPreferences.ts:21-24 | the record becomes exactly the argument; a landed write stores it under 'userPreferences' and no other key changes; a throwing write leaves storage unchanged and rethrows |
| `UserPreferences.SaveLoadRoundTrip` | src/store/userPreferences.ts:13-24 | saving then loading yields the saved record, also in a fresh store |
| `UserPreferences.LoadIdempotent` | src/store/userPreferences.ts:13-18 | loading twice is the same as loading once |

## Left out

- `fetch`, URL construction, the API key and `console.error`. Responses are
  inputs (`Fetched<T>`). Logging has no effect on any result.
- `Date.toDateString`. It depends on locale and timezone, so day keys come
  from the `dayKey` parameter.
- JSON `parse`/`stringify` and `localStorage` internals. Storage is a typed
  map and serialisation is the identity. `JSON.parse` returning a value of
  the wrong shape is not modelled. Neither is an empty stored string, which
  the identity serialisation never produces.
- `localStorage.getItem` throwing. Only parse failures are inputs.
- Floating-point temperatures and coordinates, including `NaN` in
  `Math.min`/`Math.max`. They are `int`.
- A search body whose `list` is truthy but not an array (an object or a
  string, say). `data.list || []` returns it as it is; the model's
  `SearchBody.list` is either absent/falsy (`None`) or an array of results.
- A forecast body without `list`. There, `forecastData.list.slice` throws a
  `TypeError`; the model's `ForecastData` always has a list.
- A thrown `null` or `undefined`, for which `handleError` itself would throw.
  The callers only pass `Error` objects and parse errors.
- The `ErrorResponse.duration` field exists but is never set.
- Query length counts characters, not UTF-16 code units, so a query with
  characters outside the Basic Multilingual Plane may be measured
  differently.
- The `loading = true` state while `addLocation` waits. Only the final state
  is modelled.
- Vue `ref` reactivity, Pinia store wiring, and concurrent `addLocation`
  calls racing on the read-modify-write. These are framework and concurrency
  concerns.
- `src/router/index.ts`. It is a declarative routing table with no logic.
