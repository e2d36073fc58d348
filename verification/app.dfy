/**
 The `App` component as a state machine: its seven state hooks, the events
 that reach its handlers and callbacks, the two effect guards that decide
 which follow-up request fires, and the choice of what is rendered.
 The browser, the geocoder and the weather service appear only as the
 events they deliver and the requests they receive.
 */
module App {
  import opened JsValues
  import opened Geocoding

  const NotSupported := "Geolocation is not supported by your browser"
  const Locating := "Locating..."
  const Unavailable := "Unable to retrieve your location"

  /** The weather service's response body, reduced to the fields the component reads. */
  datatype WeatherReport = WeatherReport(
    name: string,
    countryCode: string,
    tempKelvin: real,
    tempMinKelvin: real,
    tempMaxKelvin: real,
    conditionMain: string,
    iconId: string)

  /** An entry of the country reference table. */
  datatype CountryInfo = CountryInfo(isoCode: string, country: string)

  /** The `countryData` state: the initial empty string, or what the country lookup returned. */
  datatype CountryData = NotLooked | Looked(entry: Option<CountryInfo>)

  /** The `status` state: `null` or a message. */
  datatype Status = NoStatus | Message(text: string)

  /** The seven state hooks; `locationInfo` is `None` while it still holds the initial empty string. */
  datatype AppState = AppState(
    address: Text,
    locationInfo: Option<WeatherReport>,
    countryData: CountryData,
    error: bool,
    lat: Number,
    lng: Number,
    status: Status)

  /** The state on first render. */
  const Initial := AppState(Str(""), None, NotLooked, false, Null, Null, NoStatus)

  /** Everything that can reach the component, one at a time. */
  datatype Event =
    | TextInput(value: string)                                   // the input's `onChange`
    | LocateClick(geolocationAvailable: bool)                    // click on the crosshairs icon
    | PositionOk(latitude: real, longitude: real)                // `getCurrentPosition` success callback
    | PositionFailed                                             // `getCurrentPosition` error callback
    | GeocodeOk(response: GeocodeResponse)                       // `Geocode.fromLatLng` resolved
    | GeocodeFailed                                              // `Geocode.fromLatLng` rejected
    | WeatherOk(report: WeatherReport, country: Option<CountryInfo>)  // weather resolved; `country` is the lookup of its country code
    | WeatherFailed                                              // weather rejected, or its success handler threw

  /** Calls the component makes to the outside world. */
  datatype Request =
    | PositionRequest
    | GeocodeRequest(lat: real, lng: real)
    | WeatherRequest(query: string)

  /** The state after an event together with the requests it caused, in issue order. */
  datatype Outcome = Outcome(state: AppState, requests: seq<Request>)

  /** The state updates an event's handler makes, and the request the handler itself issues. */
  function Handle(s: AppState, e: Event): Outcome {
    match e
    case TextInput(v) => Outcome(s.(address := Str(v)), [])
    case LocateClick(available) =>
      if !available then Outcome(s.(status := Message(NotSupported)), [])
      else Outcome(s.(status := Message(Locating)), [PositionRequest])
    case PositionOk(la, ln) => Outcome(s.(status := NoStatus, lat := Num(la), lng := Num(ln)), [])
    case PositionFailed => Outcome(s.(status := Message(Unavailable)), [])
    case GeocodeOk(resp) =>
      (match ResolveCity(resp)
       case None => Outcome(s, [])
       case Some(city) => Outcome(s.(address := city), []))
    case GeocodeFailed => Outcome(s, [])
    case WeatherOk(report, country) => Outcome(s.(countryData := Looked(country), locationInfo := Some(report)), [])
    case WeatherFailed => Outcome(s.(error := true), [])
  }

  /** The `[lat, lng]` effect runs after a render in which either changed, and geocodes when both are truthy. */
  predicate GeocodeFires(before: AppState, after: AppState) {
    (after.lat != before.lat || after.lng != before.lng) && after.lat.Truthy() && after.lng.Truthy()
  }

  /** The `[address]` effect runs after a render in which it changed, and fetches weather when it is truthy. */
  predicate WeatherFires(before: AppState, after: AppState) {
    after.address != before.address && after.address.Truthy()
  }

  /** The requests the two effects issue, in declaration order, after the render from `before` to `after`. */
  function Effects(before: AppState, after: AppState): seq<Request> {
    (if GeocodeFires(before, after) then [GeocodeRequest(after.lat.value, after.lng.value)] else [])
    + (if WeatherFires(before, after) then [WeatherRequest(after.address.chars)] else [])
  }

  /** The city a geocode response names, as the reference "last locality" reading gives it. */
  function CityFrom(resp: GeocodeResponse): (city: Text)
    requires |resp.results| > 0
    ensures ResolveCity(resp) == Some(city)
  {
    assert Slot(Extract(resp.results[0].components), Locality) == LastWith(resp.results[0].components, Locality);
    match LastWith(resp.results[0].components, Locality)
    case Some(n) => Str(n)
    case None => Undefined
  }

  /** One event: the handler's updates, one render, then the effects whose guards hold. */
  function Step(s: AppState, e: Event): (r: Outcome)
    ensures |r.requests| <= 1
    ensures e.TextInput? ==>
      && r.state == s.(address := Str(e.value))
      && r.requests == (if e.value != "" && s.address != Str(e.value) then [WeatherRequest(e.value)] else [])
    ensures e == LocateClick(false) ==> r.state == s.(status := Message(NotSupported)) && r.requests == []
    ensures e == LocateClick(true) ==> r.state == s.(status := Message(Locating)) && r.requests == [PositionRequest]
    ensures e.PositionOk? ==>
      && r.state == s.(status := NoStatus, lat := Num(e.latitude), lng := Num(e.longitude))
      && r.requests ==
        (if e.latitude != 0.0 && e.longitude != 0.0 && (s.lat != Num(e.latitude) || s.lng != Num(e.longitude))
         then [GeocodeRequest(e.latitude, e.longitude)] else [])
    ensures e.PositionFailed? ==> r.state == s.(status := Message(Unavailable)) && r.requests == []
    ensures e.GeocodeOk? && |e.response.results| == 0 ==> r == Outcome(s, [])
    ensures e.GeocodeOk? && |e.response.results| > 0 ==>
      var city := CityFrom(e.response);
      && r.state == s.(address := city)
      && r.requests == (if city.Truthy() && city != s.address then [WeatherRequest(city.chars)] else [])
    ensures e.GeocodeFailed? ==> r == Outcome(s, [])
    ensures e.WeatherOk? ==>
      r.state == s.(locationInfo := Some(e.report), countryData := Looked(e.country)) && r.requests == []
    ensures e.WeatherFailed? ==> r.state == s.(error := true) && r.requests == []
  {
    var h := Handle(s, e);
    Outcome(h.state, h.requests + Effects(s, h.state))
  }

  /**
   What the component renders below the input. A report shows the country
   name read from `countryData.country`, which is `undefined` (`None`) while
   `countryData` still holds its initial empty string. `RenderThrows` is that
   same read when `countryData` holds the lookup's empty answer: reading a
   property of `undefined` or `null` throws.
   */
  datatype View = Report(info: WeatherReport, countryName: Option<string>) | RenderThrows | NotFoundMessage | Prompt

  /** The report (or a throwing render) whenever `locationInfo` is set, else the error message if `error` is set, else the prompt. */
  function Render(s: AppState): (v: View)
    ensures v.Report? || v.RenderThrows? <==> s.locationInfo.Some?
    ensures v.Report? ==> v.info == s.locationInfo.value
    ensures v.Report? && s.countryData.Looked? ==>
      s.countryData.entry.Some? && v.countryName == Some(s.countryData.entry.value.country)
    ensures v.Report? && s.countryData.NotLooked? ==> v.countryName == None
    ensures v == RenderThrows <==> s.locationInfo.Some? && s.countryData == Looked(None)
    ensures v == NotFoundMessage <==> s.locationInfo.None? && s.error
    ensures v == Prompt <==> s.locationInfo.None? && !s.error
  {
    match s.locationInfo
    case Some(info) =>
      (match s.countryData
       case Looked(None) => RenderThrows
       case Looked(Some(c)) => Report(info, Some(c.country))
       case NotLooked => Report(info, None))
    case None => if s.error then NotFoundMessage else Prompt
  }

  /** On mount both effects run once; neither guard holds in the initial state. */
  lemma MountIssuesNothing()
    ensures !Initial.lat.Truthy() && !Initial.address.Truthy()
    ensures Render(Initial) == Prompt
  {
  }
}
