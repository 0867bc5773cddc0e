/** The weather client of `src/utils/weatherApi.ts`. Every `fetch` is replaced
    by its outcome, given as a parameter, and each operation also reports the
    requests it issued, so "the forecast is never requested" can be stated. */
module WeatherApi {
  import opened Wrappers
  import opened ErrorHandler
  import opened DailyForecast

  datatype Coord = Coord(lat: int, lon: int)

  /** `WeatherData`: the current-weather payload. */
  datatype WeatherData = WeatherData(name: string, temp: int, tempMax: int, tempMin: int, weather: seq<Condition>, coord: Coord)

  /** `ForecastData`: the forecast payload. */
  datatype ForecastData = ForecastData(list: seq<ForecastPoint>)

  /** `SearchResult`: one city candidate. */
  datatype SearchResult = SearchResult(id: int, name: string, country: string, temp: int, weather: seq<Condition>)

  /** The `cod` field of a search body: the provider sends a string code,
      but any JSON value can appear; only the strings `'400'` and `'404'`
      are tested for. */
  datatype Code = CodeText(text: string) | CodeNumber(number: int) | NoCode

  /** The parsed search body: `cod` and `list` (an absent or falsy `list`
      is `None`). */
  datatype SearchBody = SearchBody(cod: Code, list: Option<seq<SearchResult>>)

  /** What awaiting `fetch(url)` and then `response.json()` gives: a
      response with its `ok` flag and parsed body, or a rejection (transport
      failure, or a body that is not JSON). */
  datatype Fetched<T> = Received(ok: bool, body: T) | Rejected(error: ThrownError) {
    /** `response.ok` held and the body parsed. */
    predicate IsOk() { Received? && ok }
  }

  /** The endpoints the client can request. */
  datatype Request =
    | CurrentByCity(city: string)
    | CurrentByCoords(lat: int, lon: int)
    | ForecastByCity(city: string)
    | Find(query: string)

  /** The result of an operation that may throw, with the requests it issued
      in order. */
  datatype Call<T> = Call(result: Result<T, ThrownError>, requests: seq<Request>)

  const WeatherNotFound := "Weather data not found"
  const ForecastFailed := "Failed to fetch forecast"
  const HourlyCount := 8
  const MinQueryLength := 3

  /** The shared body of `getWeatherByCity` and `getWeatherByCoords`: a
      non-ok response becomes `new Error('Weather data not found')`, a
      rejection is rethrown unchanged, an ok response yields its body. */
  function Lookup(request: Request, fetched: Fetched<WeatherData>): (r: Call<WeatherData>)
    ensures r.requests == [request]
    ensures r.result.Success? <==> fetched.IsOk()
    ensures r.result.Success? ==> r.result.value == fetched.body
    ensures fetched.Received? && !fetched.ok ==> r.result == Failure(NewError(WeatherNotFound))
    ensures fetched.Rejected? ==> r.result == Failure(fetched.error)
  {
    match fetched
    case Rejected(e) => Call(Failure(e), [request])
    case Received(ok, body) =>
      if !ok then Call(Failure(NewError(WeatherNotFound)), [request])
      else Call(Success(body), [request])
  }

  /** `getWeatherByCity`. */
  function GetWeatherByCity(city: string, fetched: Fetched<WeatherData>): (r: Call<WeatherData>)
    ensures r.requests == [CurrentByCity(city)]
    ensures r.result.Success? <==> fetched.IsOk()
    ensures r.result.Success? ==> r.result.value == fetched.body
    ensures fetched.Received? && !fetched.ok ==> r.result == Failure(NewError(WeatherNotFound))
    ensures fetched.Rejected? ==> r.result == Failure(fetched.error)
  {
    Lookup(CurrentByCity(city), fetched)
  }

  /** `getWeatherByCoords`. */
  function GetWeatherByCoords(lat: int, lon: int, fetched: Fetched<WeatherData>): (r: Call<WeatherData>)
    ensures r.requests == [CurrentByCoords(lat, lon)]
    ensures r.result.Success? <==> fetched.IsOk()
    ensures r.result.Success? ==> r.result.value == fetched.body
    ensures fetched.Received? && !fetched.ok ==> r.result == Failure(NewError(WeatherNotFound))
    ensures fetched.Rejected? ==> r.result == Failure(fetched.error)
  {
    Lookup(CurrentByCoords(lat, lon), fetched)
  }

  /** The outcome of `searchCities`: it never throws. */
  datatype Search = Search(results: seq<SearchResult>, requests: seq<Request>)

  /** `searchCities`. A query shorter than three characters returns `[]`
      without a request; otherwise the body's `ok` flag is ignored, a
      `'400'`/`'404'` code, a missing `list` or any rejection gives `[]`, and
      anything else gives `list` unchanged. */
  function SearchCities(query: string, fetched: Fetched<SearchBody>): (r: Search)
    ensures |query| < MinQueryLength ==> r == Search([], [])
    ensures |query| >= MinQueryLength ==> r.requests == [Find(query)]
    ensures r.results != [] ==>
      && |query| >= MinQueryLength
      && fetched.Received?
      && fetched.body.cod !in {CodeText("400"), CodeText("404")}
      && fetched.body.list == Some(r.results)
    ensures (&& |query| >= MinQueryLength && fetched.Received?
             && fetched.body.cod !in {CodeText("400"), CodeText("404")}
             && fetched.body.list.Some?) ==> r.results == fetched.body.list.value
  {
    if |query| < MinQueryLength then Search([], [])
    else
      var requests := [Find(query)];
      match fetched
      case Rejected(_) => Search([], requests)
      case Received(_, data) =>
        if data.cod == CodeText("400") || data.cod == CodeText("404") then Search([], requests)
        else match data.list
          case Some(list) => Search(list, requests)
          case None => Search([], requests)
  }

  /** `forecastData.list.slice(0, 8)`. */
  function Hourly(list: seq<ForecastPoint>): (r: seq<ForecastPoint>)
    ensures |r| == if |list| < HourlyCount then |list| else HourlyCount
    ensures r <= list
  {
    if |list| < HourlyCount then list else list[..HourlyCount]
  }

  /** The value `getDetailedWeather` returns. */
  datatype Detailed = Detailed(current: WeatherData, hourly: seq<ForecastPoint>, daily: seq<DailyEntry>)

  /** `getDetailedWeather`: the current weather is requested first; a non-ok
      answer throws `'City not found'` before the forecast is requested. Only
      after an ok current answer is the forecast requested, and a non-ok
      forecast throws `'Failed to fetch forecast'`. Rejections are rethrown
      unchanged. */
  function GetDetailedWeather<K(==)>(city: string, current: Fetched<WeatherData>, forecast: Fetched<ForecastData>, dayKey: int -> K): (r: Call<Detailed>)
    ensures !current.IsOk() ==> r.requests == [CurrentByCity(city)]
    ensures current.IsOk() ==> r.requests == [CurrentByCity(city), ForecastByCity(city)]
    ensures current.Received? && !current.ok ==> r.result == Failure(NewError(CityNotFound))
    ensures current.Rejected? ==> r.result == Failure(current.error)
    ensures current.IsOk() && forecast.Received? && !forecast.ok ==>
      r.result == Failure(NewError(ForecastFailed))
    ensures current.IsOk() && forecast.Rejected? ==>
      r.result == Failure(forecast.error)
    ensures r.result.Success? <==> current.IsOk() && forecast.IsOk()
    ensures r.result.Success? ==>
      var d := r.result.value;
      && d.current == current.body
      && |d.hourly| == (if |forecast.body.list| < HourlyCount then |forecast.body.list| else HourlyCount)
      && d.hourly <= forecast.body.list
      && d.daily == ProcessDailyForecast(forecast.body.list, dayKey)
  {
    var first := [CurrentByCity(city)];
    match current
    case Rejected(e) => Call(Failure(e), first)
    case Received(ok, weather) =>
      if !ok then Call(Failure(NewError(CityNotFound)), first)
      else
        var both := first + [ForecastByCity(city)];
        match forecast
        case Rejected(e) => Call(Failure(e), both)
        case Received(fok, data) =>
          if !fok then Call(Failure(NewError(ForecastFailed)), both)
          else Call(Success(Detailed(weather, Hourly(data.list), ProcessDailyForecast(data.list, dayKey))), both)
  }

  /** A failing current-weather answer decides the outcome whatever the
      forecast would have been. */
  lemma CurrentFailureTakesPrecedence<K>(city: string, current: Fetched<WeatherData>,
                                         f1: Fetched<ForecastData>, f2: Fetched<ForecastData>, dayKey: int -> K)
    requires !current.IsOk()
    ensures GetDetailedWeather(city, current, f1, dayKey) == GetDetailedWeather(city, current, f2, dayKey)
    ensures GetDetailedWeather(city, current, f1, dayKey).result.Failure?
  {
  }

  /** A search of at least three characters issues exactly one request, and
      its only outcomes are `[]` or the body's `list`. */
  lemma SearchIssuesOneRequest(query: string, fetched: Fetched<SearchBody>)
    requires |query| >= MinQueryLength
    ensures |SearchCities(query, fetched).requests| == 1
    ensures var r := SearchCities(query, fetched).results;
      r == [] || (fetched.Received? && fetched.body.list == Some(r))
  {
  }
}
