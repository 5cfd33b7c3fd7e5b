# Geolocation resolver, modelled in Dafny

This project models the location resolver of GeocodingUtility. It turns a list of
user-supplied location strings into weather-and-coordinates records or error messages.
The provider is the current-weather service reached by an HTTP GET.

- `getGeolocation` classifies one string. Exactly one comma means a city/state query, sent
  with `", US"` appended. Exactly five ASCII digits means a zip query. Anything else is
  answered at once: the empty string with a fixed "no input" message, any other string
  with `<input>: Invalid input format. …`.
- For a query that is sent, it maps the reply:
  - a 200 reply from outside the US gives a country message;
  - a 200 reply from the US gives a record copied from the body;
  - any other status gives `Error: <status> - <statusText>`;
  - a client error with a provider body gives `API Error: <cod>: <message>`;
  - any other thrown value is returned as it is.
- `getGeolocations` removes repeated strings as `[...new Set(list)]` does, keeping first
  occurrences in order. It answers an empty list with the one-element no-input list.
  Otherwise it resolves each remaining string in turn and appends the outcome.

Files:

- `js_text.dfy` (module `JsText`): the JavaScript string behaviour the resolver relies on.
  This is `split` on one character, proved against a comma count and against `join`. It
  also covers the `/^\d{5}$/` test and the decimal text of a status number, proved
  against a parser.
- `lookup.dfy` (module `Lookup`): `getGeolocation` and `kelvinToFahrenheit`. The provider
  is a parameter `provider: Request -> Reply`. `Reply` is either a response (status,
  status text, body) or a thrown value.
- `batch.dfy` (module `Batch`): `getGeolocations`. Two methods with loops:
  - `Deduplicate` is the Set pass. It is proved equal to the function `Distinct`, which is
    characterised as the unique list of the input's strings in first-occurrence order.
  - `GetGeolocations` is the append loop. It is proved equal to `Resolve`, a function
    built on `Collect`.
- `scenarios.dfy` (module `Scenarios`): outcomes the integration tests expect, for any
  provider.

Three behaviours of the code that the model keeps as written:

- The city/state check counts commas only. Empty or all-digit sides are accepted, and
  nothing is trimmed.
- A non-200 status that the client does not throw on is reported whatever its body.
- An outcome can be missing from the output. If the thrown value is `null` or
  `undefined`, the error handler's own `error.response` read throws. The resolution
  then rejects, and the batch loop catches the rejection and appends nothing (`Settled.Rejected`).
  This is the only way the output list is shorter than the deduplicated input.
  `getGeolocation` itself never resolves to `null`.

## Model

| member | source | states |
|---|---|---|
| JsText.Split | src/utilities/getGeolocations.ts:31 | `split(",")` always yields at least one piece, and no piece contains a comma |
| JsText.SplitLength | src/utilities/getGeolocations.ts:31 | `split(",")` yields one more piece than there are commas, so "length 2" means exactly one comma |
| JsText.JoinSplit | src/utilities/getGeolocations.ts:31 | joining the split pieces with the separator gives back the input (the split loses nothing) |
| JsText.IsFiveDigits | src/utilities/getGeolocations.ts:34 | a string `/^\d{5}$/` accepts has length five and holds no comma, so the one-comma test before it never takes a zip code |
| JsText.Decimal | src/utilities/getGeolocations.ts:87 | the status renders as a non-empty string of decimal digits with no leading zero |
| JsText.DecimalRoundTrip | src/utilities/getGeolocations.ts:87 | the rendered status parses back to the status, so distinct statuses give distinct messages |
| Lookup.Classify | src/utilities/getGeolocations.ts:30-48 | one comma ⇔ city/state request `input + ", US"`; five ASCII digits ⇔ zip request with the input unchanged; otherwise refused, with the exact no-input message for "" and `input + ": Invalid input format. …"` for anything else |
| Lookup.KelvinToFahrenheit | src/utilities/getGeolocations.ts:141-143 | the result is the Fahrenheit value rounded to the nearest integer, halves up (`Math.round`) |
| Lookup.WaterFixedPoints | src/utilities/getGeolocations.ts:141-143 | 273.15 K converts to 32 and 373.15 K to 212 |
| Lookup.Catch | src/utilities/getGeolocations.ts:89-96 | a client error with a body ⇔ `"API Error: <cod>: <message>"`; a thrown null/undefined ⇔ the handler rejects; every other thrown value is returned unchanged and never as a record |
| Lookup.FromWeatherData | src/utilities/getGeolocations.ts:57-84 | a record ⇔ country "US" and a non-empty weather list; the record copies name, coordinates, humidity, wind speed, condition and converted temperatures, and repeats place and country in its weather part; a non-US country ⇔ the country message; an empty weather list gives the raw TypeError |
| Lookup.FromReply | src/utilities/getGeolocations.ts:52-96 | a 200 response is read by `FromWeatherData` (country message, record, or the TypeError); a non-200 response gives `"Error: <status> - <statusText>"`; a thrown value goes to `Catch` (API Error message, rejection, or the value itself); a record only comes from a 200 response; a rejection only from a thrown null/undefined |
| Lookup.GetGeolocation | src/utilities/getGeolocations.ts:23-97 | a refused input is answered without the provider; otherwise the reply to the classified request alone decides the outcome; rejected ⇔ that reply is a thrown null/undefined; every record describes a US place consistently |
| Batch.Distinct | src/utilities/getGeolocations.ts:105 | the result has no duplicates, holds exactly the input's strings, and is no longer than the input |
| Batch.DistinctOrder | src/utilities/getGeolocations.ts:105 | the kept strings are in the order of their first occurrences in the input |
| Batch.DistinctCharacterized | src/utilities/getGeolocations.ts:105 | any list of the input's strings in first-occurrence order is the deduplicated list: first occurrences are kept, nothing else |
| Batch.DistinctSubsequence | src/utilities/getGeolocations.ts:105 | the deduplicated list is a subsequence of the input, picked out at increasing positions |
| Batch.DistinctIdempotent | src/utilities/getGeolocations.ts:105 | deduplicating twice is the same as once |
| Batch.Deduplicate | src/utilities/getGeolocations.ts:105 | the Set-insertion pass over the list computes `Distinct` of it |
| Batch.Collect | src/utilities/getGeolocations.ts:114-136 | the loop never appends more outcomes than it visits inputs |
| Batch.CollectAppend | src/utilities/getGeolocations.ts:114-136 | outcomes for a concatenation are the outcomes of each part in turn, so a failing or invalid input never stops later ones |
| Batch.CollectAllFulfilled | src/utilities/getGeolocations.ts:114-136 | when no resolution rejects, outcome i is the outcome of input i |
| Batch.CollectDropsOnlyRejected | src/utilities/getGeolocations.ts:114-136 | the output has one outcome per input ⇔ no resolution rejects |
| Batch.GetGeolocations | src/utilities/getGeolocations.ts:99-139 | the method returns `Resolve`: the one-element no-input list for an empty list, otherwise the collected outcomes of the deduplicated list, never more of them than distinct inputs |
| Batch.DroppedOnlyOnNullish | src/utilities/getGeolocations.ts:89-135 | for a non-empty list, the output is shorter than the deduplicated list ⇔ the provider threw `null`/`undefined` for some input string |
| Batch.ResolveOnePerDistinct | src/utilities/getGeolocations.ts:107-138 | for a non-empty list without rejections there is exactly one outcome per distinct input, in first-occurrence order |
| Scenarios.MadisonSent | src/integrationTests/getLocationDetails.spec.ts:8-22 | "Madison, WI" is sent as `q = "Madison, WI, US"` |
| Scenarios.ZipSent | src/integrationTests/getLocationDetails.spec.ts:24-35 | "78744" is sent as a zip |
| Scenarios.LongDigitsRefused | src/integrationTests/getLocationDetails.spec.ts:161-172 | "5656575478493" is a format error, not a zip |
| Scenarios.CityNotFound | src/integrationTests/getLocationDetails.spec.ts:174-177 | a city/state query the provider answers with its 404 body gives exactly `["API Error: 404: city not found"]` |
| Scenarios.ForeignPlace | src/integrationTests/getLocationDetails.spec.ts:186-209 | a city/state query the provider answers with a 200 body from country TR, whatever its other fields, gives exactly the country message `"<query>: TR is different country than US. …"` |
| Scenarios.EmptyInputs | src/integrationTests/getLocationDetails.spec.ts:127-132 | `[""]` and `[]` both give exactly the one-element no-input list, whatever the provider |
| Scenarios.DuplicatesCollapse | src/integrationTests/getLocationDetails.spec.ts:134-159 | `["Chicago, IL", "78744", "Chicago, IL", "78744"]` deduplicates to `["Chicago, IL", "78744"]` |

## Left out

- The HTTP GET, the `dotenv`/`process.env` reading of the API key and base URL, and the
  provider's own behaviour. The provider is a function parameter, and the key and URL are
  part of it. Its answer is taken to depend only on the request, so a service whose
  answers change between two calls in one batch is not modelled.
- Floating point: latitude, longitude, wind speed and the Kelvin readings are `real`s.
  `kelvinToFahrenheit` is computed exactly and then rounded as `Math.round` does, so
  IEEE double rounding in `(k - 273.15) * (9 / 5) + 32` is not modelled.
- Missing body fields: `name`, `coord`, `sys`, `main` and `wind` are always present in
  the modelled body. Only an empty `weather` list, whose `[0].description` read throws,
  is modelled.
- The provider error body's `cod` is kept as the text it renders to. The service sends it
  sometimes as a number and sometimes as a string.
- Console logging in the batch loop has no effect on the result. `async`/`await` is
  dropped because the calls are strictly sequential.
- The command-line wrapper `geoloc-util.ts` only forwards its arguments, and
  `typesForGeo.ts` only declares types. They are not part of this model.
- Scenarios: the three-comma input of the format-error test is covered by
  `Lookup.Classify`'s contract and has no concrete lemma of its own. The not-found and
  non-US tests are stated for one query at a time, with the provider's answer as a
  precondition. The three-place list of the non-US test, the records' live field values,
  and the tests with a changed API key or URL are covered only by `Lookup.Catch` and
  `Lookup.FromWeatherData`.
