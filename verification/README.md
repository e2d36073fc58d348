# Weather widget: location resolution and lookup state machine

This project models the behavioural core of a React weather widget, the
`App` component in `src/App.js`. The component keeps seven pieces of state
(`address`, `locationInfo`, `countryData`, `error`, `lat`, `lng`, `status`).
It changes them in response to typed input, a geolocation click, the
browser's position callbacks, a reverse-geocode response and a weather
response. Two effects decide whether a follow-up geocode or weather request
goes out, and the render picks one of three views.

The Dafny model has four modules:

- `JsValues` (`js_values.dfy`): the JavaScript shapes the state holds. `Text` is a string or `undefined`. `Number` is a number or `null`. Each has JavaScript's truthiness rule.
- `Geocoding` (`geocoding.dfy`): the address-component scan of the reverse-geocode success handler, modelled as a pure fold (`Record`, `VisitTypes`, `Scan`, `Extract`). It is proved equal to an independent "last match" reading (`LastWith`, `IsLastMatch`).
- `App` (`app.dfy`): state, events, requests, the handlers (`Handle`), the two effect guards (`GeocodeFires`, `WeatherFires`), one event's full transition (`Step`) and the view choice (`Render`).
- `Session` (`session.dfy`): sequences of events (`Run`), with the facts that hold along every session.

The browser, the geocoder and the weather service are not called. Each of
their answers is an `Event` carrying an abstract payload. Each call the
component makes is a `Request` in the outcome of a step. Events arrive one
at a time. All state updates a handler makes are applied together, and then
the effects run once.

Behaviour worth noting:

- A successful weather lookup never clears `error`. Only src/App.js:37 writes it, and it writes `true` (`Session.ErrorOnlyFromFailure`).
- A geocode result with no `locality` component still updates the address. src/App.js:103 calls `setAddress` with `undefined`. Because `undefined` is falsy, no weather request follows (`Session.NoLocalityStalls`).
- `status` and `error` are two separate pieces of state.
- `status` is written (src/App.js:47, 49, 52, 57) but never read, by an effect or by the JSX. The user never sees a status message. Like `state` and `country` in the geocode handler, it is computed and never used (`Session.StatusNeverObserved`).
- With a report on screen, the JSX reads `countryData.country` (src/App.js:156). When the country lookup found nothing, `countryData` is `undefined` and that read throws during rendering. The model has a `RenderThrows` view for this case.

## Model

| member | source | states |
|---|---|---|
| Geocoding.Record | src/App.js:90-100 | A recognised type label overwrites exactly its own variable with the component's long name. Any other label leaves all three variables unchanged. |
| Geocoding.VisitTypes | src/App.js:85-101 | One component sets every variable whose label it carries, because `break` leaves only the `switch`. A component with no recognised label changes nothing. |
| Geocoding.Scan | src/App.js:80-102 | After scanning the components in order, each variable holds the last match's long name, or its value from before the scan if nothing matched. |
| Geocoding.Extract | src/App.js:79-102 | Starting from `undefined`, each of `city`, `state`, `country` ends equal to the reference last-match reading for its label. |
| Geocoding.LastWithNoneIffNoMatch | src/App.js:80-102 | The reference last-match reading is empty exactly when no component carries the label. |
| Geocoding.LastWithFindsLastMatch | src/App.js:80-102 | When component `i` carries the label and no later component does, the reference reading is component `i`'s long name. |
| Geocoding.ExtractTakesLastMatch | src/App.js:80-102 | `city`, `state` and `country` each hold the long name of the last component carrying their label. Each stays `undefined` iff no component carries that label. |
| Geocoding.ResolveCity | src/App.js:76-104 | No `setAddress` happens when there is no first result. Otherwise the value passed is the last `locality` name of `results[0]`, and it is `undefined` iff no component there is a locality. |
| Geocoding.OnlyFirstResult | src/App.js:78-92 | Results after the first never change the city. |
| App.CityFrom | src/App.js:103 | The value given to `setAddress` is the last-locality reading of the first result. |
| App.Step | src/App.js:27-128 | Each event's effect on the state and the requests it issues. Text input sets `address` and fetches weather iff the text is non-empty and new. An unsupported click sets `status` to the not-supported message, requests no position and leaves `lat`/`lng` alone. A supported click sets `status` to "Locating..." and requests a position. A position success clears `status`, sets `lat`/`lng`, and geocodes iff both are non-zero and one changed. A position error sets the unavailable message and leaves `lat`/`lng` alone. A geocode result sets `address` to its city and fetches weather iff that city is non-empty and new. Weather success sets `locationInfo`/`countryData` and leaves `error` alone. Weather failure sets `error` and leaves the rest alone. At most one request per event. |
| App.Render | src/App.js:135-189 | With `locationInfo` set, the report shows with the looked-up country name. If the country lookup found nothing, the render throws instead. With `locationInfo` unset, the not-found message shows iff `error` is set, and otherwise the prompt. |
| App.MountIssuesNothing | src/App.js:19-25 | In the initial state neither effect guard holds, and the prompt is shown. |
| Session.Run | src/App.js:63-73 | Over any sequence of events there are at most as many requests as events. No geocode request has a zero coordinate. No weather request has an empty query. |
| Session.ErrorOnlyFromFailure | src/App.js:36-38 | At the end of a session `error` is set iff it was set at the start or some weather lookup failed. |
| Session.ReportOnlyFromSuccess | src/App.js:31-35 | At the end of a session a report is held iff one was held at the start or some weather lookup succeeded. |
| Session.NoMessageAfterReport | src/App.js:135-189 | Once a report is held, the view is never again the not-found message or the prompt, whatever events follow. |
| Session.FailureKeepsEarlierReport | src/App.js:36-38 | A failed lookup after a successful one leaves the view unchanged, so no error message replaces the earlier report. |
| Session.CoordinatesOnlyFromPositions | src/App.js:51-55 | `lat` and `lng` are `null` together or numbers together. They change only when a position arrives. |
| Session.StatusStaysKnown | src/App.js:45-61 | `status` only ever holds `null` or one of the three fixed messages. |
| Session.StatusNeverObserved | src/App.js:111-195 | Changing `status` alters neither the rendered view nor the requests the effects issue. |
| Session.LocatingOnlyFromClick | src/App.js:48-50 | `status` becomes "Locating..." only after a click that found geolocation available, and that click requests a position. |
| Session.ZeroCoordinateNeverGeocodes | src/App.js:63-67 | A position with latitude 0 or longitude 0 is stored, but no geocode request follows. |
| Session.NoLocalityStalls | src/App.js:69-103 | A first result with no locality component sets `address` to `undefined`, and no request follows. |
| Session.EmptyInputKeepsReport | src/App.js:128 | Typing the empty string issues no request and keeps `locationInfo` and the view. |
| Session.GeolocationWalkthrough | src/App.js:45-109 | From a fresh page, a click, a non-zero position, a geocode result naming a city and a weather report issue exactly a position request, a geocode request for that position and a weather request for that city, in that order. The last step stores the report and the country lookup's answer. |

## Left out

- `kelvinToFahrenheit` (src/App.js:41-43) is not modelled. It does floating-point subtraction and `toFixed(2)` formatting, and it is used only in the JSX. Despite its name it computes Celsius.
- `getCountryByCode` (src/getCountryByCode.js) is not modelled. It wraps an external country table that is not part of this model. Its answer is carried in the `WeatherOk` event. A lookup that throws lands in the weather call's `catch`, so it is the `WeatherFailed` event.
- App.Render: a render that throws is a single `RenderThrows` view. What React does next (unmounting the component tree) is not modelled.
- The HTTP calls (axios, `react-geocode`), `navigator.geolocation`, the request URLs, the icon URL and the API keys are left out. They are I/O and configuration, so they appear only as `Request` values and `Event` payloads. The query is not URL-encoded, and that is not modelled either.
- Session.Run: responses may arrive in any order, and a response is not required to answer an earlier request. Nothing in the component cancels or matches requests, so out-of-order and superseded responses are handled as plain events.
- App.Step: all updates made by one callback are applied together before the effects run. This is how batched React renders work. Without batching, a second position success could render once with the new `lat` and the old `lng`, and could geocode that mixed pair. That interleaving is not modelled.
- JavaScript's `NaN` is not modelled as a coordinate. The geolocation API does not deliver it.
- `formatted_address`, `state` and `country` are computed by the geocode handler but never used. The scan still models `state` and `country`. The unused `formatted_address` is kept only as a field.
- The JSX layout, styles, icons and flags (src/App.js:111-195) are left out, apart from the choice among the report, a throwing render, the not-found message and the prompt.
