/**
 * Resolving one location string (`getGeolocation`): classify it as a city/state
 * or a zip query, ask the weather provider, and turn the provider's reply, or
 * whatever the HTTP client throws, into a record, a message, or the raw error.
 *
 * The provider is a function from the query parameters to the reply; it stands
 * for the HTTP GET against the configured base URL with the configured API key.
 */
module Lookup {
  import opened JsText

  const NO_INPUT_MESSAGE: string :=
    "Please pass an input. Invalid input format. Provide a valid city, state (e.g., \"Madison, WI\") or a valid zip code (e.g., \"12345\")."
  const FORMAT_ERROR_SUFFIX: string :=
    ": Invalid input format. Please provide a valid city, state (e.g., \"Madison, WI\") or a valid zip code (e.g., \"12345\")."
  const NOT_US_SUFFIX: string :=
    " is different country than US. Please use a place within in US"
  const US: string := "US"

  /** The query parameter sent beside `appid`: `q` for a city/state, `zip` for a zip code. */
  datatype Request = ByName(q: string) | ByZip(zip: string)

  /** Either the request to send, or the message returned without asking the provider. */
  datatype Classification = Send(request: Request) | Refuse(message: string)

  // The fields of the provider's current-weather body that the resolver reads.
  datatype Coord = Coord(lat: real, lon: real)
  datatype Sys = Sys(country: string)
  datatype Readings = Readings(temp: real, feelsLike: real, humidity: int)
  datatype Wind = Wind(speed: real)
  datatype Condition = Condition(description: string)
  datatype WeatherData = WeatherData(
    name: string, coord: Coord, sys: Sys, main: Readings, wind: Wind, weather: seq<Condition>)

  /** A provider error body, e.g. cod 404 with "city not found"; `cod` is kept as the text it renders to. */
  datatype ErrorBody = ErrorBody(cod: string, message: string)

  /**
   * A value thrown while one location is resolved. `body` is present exactly
   * when the client error carries both a `response` and a truthy `response.data`.
   */
  datatype Thrown =
    | ClientError(message: string, body: BodyOption)
    | MissingCondition  // the TypeError raised by `weather[0].description` on an empty list
    | Nullish           // a thrown `null` or `undefined`

  datatype BodyOption = NoBody | Body(value: ErrorBody)

  /** What the HTTP client gives back for one GET: a response, or what it throws. */
  datatype Reply =
    | Response(status: nat, statusText: string, data: WeatherData)
    | Failure(error: Thrown)

  datatype Weather = Weather(
    place: string, temperature: int, feelsLike: int, humidity: int,
    windSpeed: real, weatherCondition: string, country: string)

  datatype Geolocation = Geolocation(
    place: string, latitude: real, longitude: real, country: string, weather: Weather)

  /** What one resolution yields: a record, a message, or the thrown value returned as it is. */
  datatype Outcome = Located(location: Geolocation) | Message(text: string) | Raw(error: Thrown)

  /**
   * How the promise of one resolution settles. It is rejected only when the
   * error handler itself throws, which it does on reading `.response` of a
   * thrown `null` or `undefined`.
   */
  datatype Settled = Fulfilled(outcome: Outcome) | Rejected

  /**
   * The input check, in its fixed order: exactly one comma, then exactly five
   * digits, then the empty string, then anything else.
   */
  function Classify(query: string): (c: Classification)
    ensures c.Send? && c.request.ByName? <==> Count(query, ',') == 1
    ensures c.Send? && c.request.ByName? ==> c.request.q == query + ", US"
    ensures c.Send? && c.request.ByZip? <==> IsFiveDigits(query)
    ensures c.Send? && c.request.ByZip? ==> c.request.zip == query
    ensures c.Refuse? <==> Count(query, ',') != 1 && !IsFiveDigits(query)
    ensures c.Refuse? ==> c.message == if query == "" then NO_INPUT_MESSAGE else query + FORMAT_ERROR_SUFFIX
  {
    SplitLength(query, ',');
    if |Split(query, ',')| == 2 then Send(ByName(query + ", US"))
    else if IsFiveDigits(query) then Send(ByZip(query))
    else if query == "" then Refuse(query + NO_INPUT_MESSAGE)
    else Refuse(query + FORMAT_ERROR_SUFFIX)
  }

  /** The exact value `(kelvin - 273.15) * (9 / 5) + 32`. */
  function Fahrenheit(kelvin: real): real
  {
    (kelvin - 273.15) * (9.0 / 5.0) + 32.0
  }

  /** `kelvinToFahrenheit`: `Math.round` of the Fahrenheit value, halves rounded up. */
  function KelvinToFahrenheit(kelvin: real): (f: int)
    ensures f as real - 0.5 <= Fahrenheit(kelvin) < f as real + 0.5
  {
    (Fahrenheit(kelvin) + 0.5).Floor
  }

  /** Freezing and boiling points of water. */
  lemma WaterFixedPoints()
    ensures KelvinToFahrenheit(273.15) == 32
    ensures KelvinToFahrenheit(373.15) == 212
  {
    assert Fahrenheit(273.15) == 32.0;
    assert Fahrenheit(373.15) == 212.0;
  }

  /**
   * The error handler: a client error with a provider body becomes
   * "API Error: <cod>: <message>"; a thrown `null`/`undefined` makes the handler
   * itself throw; anything else is returned unchanged.
   */
  function Catch(error: Thrown): (s: Settled)
    ensures s.Rejected? <==> error.Nullish?
    ensures s.Fulfilled? && s.outcome.Message? <==> error.ClientError? && error.body.Body?
    ensures s.Fulfilled? && s.outcome.Message? ==>
              s.outcome.text == "API Error: " + error.body.value.cod + ": " + error.body.value.message
    ensures s.Fulfilled? && s.outcome.Raw? ==> s.outcome.error == error
    ensures s.Fulfilled? ==> !s.outcome.Located?
  {
    match error
    case Nullish => Rejected
    case ClientError(_, Body(body)) => Fulfilled(Message("API Error: " + body.cod + ": " + body.message))
    case _ => Fulfilled(Raw(error))
  }

  /** The record built from a US reply whose weather list is not empty. */
  function ToGeolocation(data: WeatherData): (g: Geolocation)
    requires |data.weather| > 0
  {
    var weather := Weather(
      data.name,
      KelvinToFahrenheit(data.main.temp),
      KelvinToFahrenheit(data.main.feelsLike),
      data.main.humidity,
      data.wind.speed,
      data.weather[0].description,
      data.sys.country);
    Geolocation(data.name, data.coord.lat, data.coord.lon, data.sys.country, weather)
  }

  /**
   * A record is consistent when it describes a US place and its weather
   * snapshot names the same place and country.
   */
  predicate Consistent(g: Geolocation)
  {
    g.country == US && g.weather.place == g.place && g.weather.country == g.country
  }

  /**
   * A status-200 body: rejected with a message when the country is not "US"
   * (checked before anything else is read), otherwise copied into a record.
   */
  function FromWeatherData(query: string, data: WeatherData): (s: Settled)
    ensures s.Fulfilled?
    ensures s.outcome.Located? <==> data.sys.country == US && |data.weather| > 0
    ensures s.outcome.Located? ==> Consistent(s.outcome.location)
    ensures s.outcome.Located? ==>
              var g := s.outcome.location;
              && g.place == data.name
              && g.latitude == data.coord.lat
              && g.longitude == data.coord.lon
              && g.weather.humidity == data.main.humidity
              && g.weather.windSpeed == data.wind.speed
              && g.weather.weatherCondition == data.weather[0].description
              && g.weather.temperature == KelvinToFahrenheit(data.main.temp)
              && g.weather.feelsLike == KelvinToFahrenheit(data.main.feelsLike)
    ensures s.outcome.Message? <==> data.sys.country != US
    ensures s.outcome.Message? ==> s.outcome.text == query + ": " + data.sys.country + NOT_US_SUFFIX
    ensures s.outcome.Raw? ==> s.outcome.error == MissingCondition
  {
    if data.sys.country != US then
      Fulfilled(Message(query + ": " + data.sys.country + NOT_US_SUFFIX))
    else if |data.weather| == 0 then
      Catch(MissingCondition)
    else
      Fulfilled(Located(ToGeolocation(data)))
  }

  /** The reply of the HTTP client: status 200 is read, any other status is reported, a throw is caught. */
  function FromReply(query: string, reply: Reply): (s: Settled)
    ensures s.Rejected? <==> reply == Failure(Nullish)
    ensures reply.Response? && reply.status == 200 ==> s == FromWeatherData(query, reply.data)
    ensures reply.Failure? ==> s == Catch(reply.error)
    ensures reply.Response? && reply.status != 200 ==>
              s == Fulfilled(Message("Error: " + Decimal(reply.status) + " - " + reply.statusText))
    ensures s.Fulfilled? && s.outcome.Located? ==> reply.Response? && reply.status == 200
  {
    match reply
    case Response(status, statusText, data) =>
      if status == 200 then FromWeatherData(query, data)
      else Fulfilled(Message("Error: " + Decimal(status) + " - " + statusText))
    case Failure(error) => Catch(error)
  }

  /**
   * `getGeolocation`: a refused input is answered without asking the provider;
   * otherwise the provider is asked once, with the classified request.
   */
  function GetGeolocation(query: string, provider: Request -> Reply): (s: Settled)
    ensures Classify(query).Refuse? ==> s == Fulfilled(Message(Classify(query).message))
    ensures Classify(query).Send? ==> s == FromReply(query, provider(Classify(query).request))
    ensures s.Rejected? <==> Classify(query).Send? && provider(Classify(query).request) == Failure(Nullish)
    ensures s.Fulfilled? && s.outcome.Located? ==> Consistent(s.outcome.location)
  {
    match Classify(query)
    case Refuse(message) => Fulfilled(Message(message))
    case Send(request) => FromReply(query, provider(request))
  }
}
