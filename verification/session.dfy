/**
 A session of the component: events applied one at a time from some state,
 with every request they caused collected in order. The lemmas state what
 holds along every such session.
 */
module Session {
  import opened JsValues
  import opened Geocoding
  import opened App

  /** No request carries a value the effect guards would have refused. */
  predicate WellFormed(req: Request) {
    match req
    case PositionRequest => true
    case GeocodeRequest(la, ln) => la != 0.0 && ln != 0.0
    case WeatherRequest(q) => q != ""
  }

  /** The events applied in order; each event issues at most one request and none is ill-formed. */
  function Run(s: AppState, events: seq<Event>): (r: Outcome)
    ensures |r.requests| <= |events|
    ensures forall i | 0 <= i < |r.requests| :: WellFormed(r.requests[i])
    decreases |events|
  {
    if |events| == 0 then Outcome(s, [])
    else
      var first := Step(s, events[0]);
      var rest := Run(first.state, events[1..]);
      Outcome(rest.state, first.requests + rest.requests)
  }

  /** `error` is set exactly when it started set or some weather lookup failed: no event ever clears it. */
  lemma {:induction false} ErrorOnlyFromFailure(s: AppState, events: seq<Event>)
    ensures Run(s, events).state.error <==> s.error || WeatherFailed in events
    decreases |events|
  {
    if |events| > 0 {
      ErrorOnlyFromFailure(Step(s, events[0]).state, events[1..]);
      assert WeatherFailed in events <==> events[0] == WeatherFailed || WeatherFailed in events[1..];
    }
  }

  /** Once a report is held it stays; one is held at the end exactly when one was at the start or a lookup succeeded. */
  lemma {:induction false} ReportOnlyFromSuccess(s: AppState, events: seq<Event>)
    ensures Run(s, events).state.locationInfo.Some? <==>
      s.locationInfo.Some? || exists i | 0 <= i < |events| :: events[i].WeatherOk?
    decreases |events|
  {
    if |events| > 0 {
      ReportOnlyFromSuccess(Step(s, events[0]).state, events[1..]);
      if exists i | 1 <= i < |events| :: events[i].WeatherOk? {
        var i :| 1 <= i < |events| && events[i].WeatherOk?;
        assert events[1..][i - 1].WeatherOk?;
      }
      if exists i | 0 <= i < |events[1..]| :: events[1..][i].WeatherOk? {
        var i :| 0 <= i < |events[1..]| && events[1..][i].WeatherOk?;
        assert events[i + 1].WeatherOk?;
      }
    }
  }

  /**
   After the first successful lookup the view is never again the error message
   or the prompt, whatever fails later: it is the report, or a render that throws.
   */
  lemma NoMessageAfterReport(s: AppState, events: seq<Event>)
    requires s.locationInfo.Some?
    ensures Render(Run(s, events).state).Report? || Render(Run(s, events).state) == RenderThrows
  {
    ReportOnlyFromSuccess(s, events);
  }

  /** A failed lookup after a successful one leaves the view unchanged: no error message replaces the earlier report. */
  lemma FailureKeepsEarlierReport(s: AppState)
    requires s.locationInfo.Some?
    ensures Render(Step(s, WeatherFailed).state) == Render(s)
  {
  }

  /** `lat` and `lng` change only when a position arrives, and then together. */
  lemma {:induction false} CoordinatesOnlyFromPositions(s: AppState, events: seq<Event>)
    requires s.lat.Null? <==> s.lng.Null?
    ensures var t := Run(s, events).state; t.lat.Null? <==> t.lng.Null?
    ensures (forall i | 0 <= i < |events| :: !events[i].PositionOk?) ==>
      Run(s, events).state.lat == s.lat && Run(s, events).state.lng == s.lng
    decreases |events|
  {
    if |events| > 0 {
      CoordinatesOnlyFromPositions(Step(s, events[0]).state, events[1..]);
      if forall i | 0 <= i < |events| :: !events[i].PositionOk? {
        assert !events[0].PositionOk?;
        assert forall i | 0 <= i < |events[1..]| :: !events[1..][i].PositionOk? by {
          forall i | 0 <= i < |events[1..]| ensures !events[1..][i].PositionOk? {
            assert events[1..][i] == events[i + 1];
          }
        }
      }
    }
  }

  /** The values `status` can hold. */
  predicate KnownStatus(st: Status) {
    st == NoStatus || st == Message(NotSupported) || st == Message(Locating) || st == Message(Unavailable)
  }

  /** `status` only ever holds `null` or one of the three fixed messages. */
  lemma {:induction false} StatusStaysKnown(s: AppState, events: seq<Event>)
    requires KnownStatus(s.status)
    ensures KnownStatus(Run(s, events).state.status)
    decreases |events|
  {
    if |events| > 0 {
      StatusStaysKnown(Step(s, events[0]).state, events[1..]);
    }
  }

  /** `status` is written but never read: changing it alters neither the view nor the requests. */
  lemma StatusNeverObserved(s: AppState, st: Status)
    ensures Render(s.(status := st)) == Render(s)
    ensures Effects(s, s.(status := st)) == []
  {
  }

  /** `status` becomes "Locating..." only because a click found geolocation available and asked for a position. */
  lemma LocatingOnlyFromClick(s: AppState, e: Event)
    requires s.status != Message(Locating)
    requires Step(s, e).state.status == Message(Locating)
    ensures e == LocateClick(true)
    ensures Step(s, e).requests == [PositionRequest]
  {
  }

  /** A position on the equator or the prime meridian is stored but never geocoded. */
  lemma ZeroCoordinateNeverGeocodes(s: AppState, latitude: real, longitude: real)
    requires latitude == 0.0 || longitude == 0.0
    ensures Step(s, PositionOk(latitude, longitude)).requests == []
    ensures Step(s, PositionOk(latitude, longitude)).state.lat == Num(latitude)
  {
  }

  /** A geocode result without a locality component clears `address` to `undefined` and fetches nothing. */
  lemma NoLocalityStalls(s: AppState, resp: GeocodeResponse)
    requires |resp.results| > 0
    requires forall i | 0 <= i < |resp.results[0].components| :: Locality !in resp.results[0].components[i].types
    ensures Step(s, GeocodeOk(resp)).state.address == Undefined
    ensures Step(s, GeocodeOk(resp)).requests == []
  {
  }

  /** Clearing the text box fetches nothing and keeps whatever report was on screen. */
  lemma EmptyInputKeepsReport(s: AppState)
    ensures Step(s, TextInput("")).requests == []
    ensures Step(s, TextInput("")).state.locationInfo == s.locationInfo
    ensures Render(Step(s, TextInput("")).state) == Render(s)
  {
  }

  /** The geocode and weather steps of the walkthrough, from a state whose address is still empty. */
  lemma GeocodeThenWeather(s: AppState, resp: GeocodeResponse, city: string,
                           report: WeatherReport, country: Option<CountryInfo>)
    requires |resp.results| > 0 && LastWith(resp.results[0].components, Locality) == Some(city) && city != ""
    requires s.address == Str("")
    ensures Step(s, GeocodeOk(resp)) == Outcome(s.(address := Str(city)), [WeatherRequest(city)])
    ensures Step(s.(address := Str(city)), WeatherOk(report, country)) ==
      Outcome(s.(address := Str(city), locationInfo := Some(report), countryData := Looked(country)), [])
  {
  }

  /**
   The whole geolocation path from a fresh page: a click that finds geolocation,
   a position off the zero lines, a geocode result naming a city, and a weather
   report for it. Each step issues exactly one request — a position, a geocode
   for that position, a weather lookup for that city — except the last, which
   stores the report and the country lookup's answer.
   */
  lemma GeolocationWalkthrough(latitude: real, longitude: real, resp: GeocodeResponse, city: string,
                               report: WeatherReport, country: Option<CountryInfo>)
    requires latitude != 0.0 && longitude != 0.0
    requires |resp.results| > 0 && LastWith(resp.results[0].components, Locality) == Some(city) && city != ""
    ensures
      var s1 := Initial.(status := Message(Locating));
      var s2 := s1.(status := NoStatus, lat := Num(latitude), lng := Num(longitude));
      var s3 := s2.(address := Str(city));
      var s4 := s3.(locationInfo := Some(report), countryData := Looked(country));
      && Step(Initial, LocateClick(true)) == Outcome(s1, [PositionRequest])
      && Step(s1, PositionOk(latitude, longitude)) == Outcome(s2, [GeocodeRequest(latitude, longitude)])
      && Step(s2, GeocodeOk(resp)) == Outcome(s3, [WeatherRequest(city)])
      && Step(s3, WeatherOk(report, country)) == Outcome(s4, [])
  {
    var s1 := Initial.(status := Message(Locating));
    var s2 := s1.(status := NoStatus, lat := Num(latitude), lng := Num(longitude));
    GeocodeThenWeather(s2, resp, city, report, country);
  }
}
