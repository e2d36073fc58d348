/**
 The reverse-geocode success handler of `getLocationLatLong`: a scan of the
 address components of the first result that records the long name of the
 last component carrying each of three type labels.
 */
module Geocoding {
  import opened JsValues

  const Locality := "locality"
  const AdminAreaLevel1 := "administrative_area_level_1"
  const CountryLabel := "country"

  /** One entry of `address_components`: its `long_name` and its `types`. */
  datatype AddressComponent = AddressComponent(longName: string, types: seq<string>)

  /** One entry of `results`; `formattedAddress` is read by the handler but never used. */
  datatype GeocodeResult = GeocodeResult(formattedAddress: string, components: seq<AddressComponent>)

  /** The geocoder's response, with its results in ranked order. */
  datatype GeocodeResponse = GeocodeResponse(results: seq<GeocodeResult>)

  /** The handler's three `let` variables `city`, `state` and `country`; `None` is `undefined`. */
  datatype Place = Place(city: Option<string>, state: Option<string>, country: Option<string>)

  /** The variables as declared, before the scan. */
  const Unset := Place(None, None, None)

  /** The type labels the `switch` has a case for. */
  predicate Recognised(tag: string) {
    tag == Locality || tag == AdminAreaLevel1 || tag == CountryLabel
  }

  /** The variable that the `switch` case for a recognised type label writes. */
  function Slot(p: Place, tag: string): Option<string>
    requires Recognised(tag)
  {
    if tag == Locality then p.city
    else if tag == AdminAreaLevel1 then p.state
    else p.country
  }

  /** One pass through the `switch`: a recognised type label overwrites its variable, anything else falls through. */
  function Record(p: Place, tag: string, name: string): (r: Place)
    ensures forall l | Recognised(l) :: Slot(r, l) == if l == tag then Some(name) else Slot(p, l)
    ensures !Recognised(tag) ==> r == p
  {
    if tag == Locality then p.(city := Some(name))
    else if tag == AdminAreaLevel1 then p.(state := Some(name))
    else if tag == CountryLabel then p.(country := Some(name))
    else p
  }

  /**
   The inner loop over one component's `types`. `break` leaves only the
   `switch`, so every recognised tag the component carries is recorded.
   */
  function VisitTypes(p: Place, name: string, types: seq<string>): (r: Place)
    ensures forall l | Recognised(l) :: Slot(r, l) == if l in types then Some(name) else Slot(p, l)
    ensures (forall k | 0 <= k < |types| :: !Recognised(types[k])) ==> r == p
    decreases |types|
  {
    if |types| == 0 then p
    else
      var r := VisitTypes(Record(p, types[0], name), name, types[1..]);
      assert forall l :: l in types <==> l == types[0] || l in types[1..];
      r
  }

  /** The outer loop over the components, in order. */
  function Scan(p: Place, comps: seq<AddressComponent>): (r: Place)
    ensures forall l | Recognised(l) :: Slot(r, l) == if LastWith(comps, l).Some? then LastWith(comps, l) else Slot(p, l)
    decreases |comps|
  {
    if |comps| == 0 then p
    else
      var r := Scan(VisitTypes(p, comps[0].longName, comps[0].types), comps[1..]);
      forall l | Recognised(l)
        ensures Slot(r, l) == if LastWith(comps, l).Some? then LastWith(comps, l) else Slot(p, l)
      {
        LastWithFront(comps, l);
      }
      r
  }

  /** The variables after the whole scan of one result's components. */
  function Extract(comps: seq<AddressComponent>): (r: Place)
    ensures forall l | Recognised(l) :: Slot(r, l) == LastWith(comps, l)
  {
    Scan(Unset, comps)
  }

  /**
   Reference reading of "last match wins": the long name of the last
   component whose types contain `tag`, looked for from the back.
   */
  function LastWith(comps: seq<AddressComponent>, tag: string): Option<string>
    decreases |comps|
  {
    if |comps| == 0 then None
    else if tag in comps[|comps| - 1].types then Some(comps[|comps| - 1].longName)
    else LastWith(comps[..|comps| - 1], tag)
  }

  /** Component `i` carries type label `tag` and no later component does. */
  predicate IsLastMatch(comps: seq<AddressComponent>, tag: string, i: int) {
    0 <= i < |comps| && tag in comps[i].types
    && forall j | i < j < |comps| :: tag !in comps[j].types
  }

  /** Peeling the first component off: it decides only when no later component matches. */
  lemma {:induction false} LastWithFront(comps: seq<AddressComponent>, tag: string)
    requires |comps| > 0
    ensures LastWith(comps, tag) ==
      if LastWith(comps[1..], tag).Some? then LastWith(comps[1..], tag)
      else if tag in comps[0].types then Some(comps[0].longName)
      else None
    decreases |comps|
  {
    var n := |comps|;
    if n == 1 {
      assert comps[1..] == [];
      assert comps[..0] == [];
    } else {
      assert comps[1..][..n - 2] == comps[..n - 1][1..];
      assert comps[1..][n - 2] == comps[n - 1];
      LastWithFront(comps[..n - 1], tag);
    }
  }

  /** `LastWith` finds nothing exactly when no component carries the type label. */
  lemma {:induction false} LastWithNoneIffNoMatch(comps: seq<AddressComponent>, tag: string)
    ensures LastWith(comps, tag).None? <==> forall i | 0 <= i < |comps| :: tag !in comps[i].types
    decreases |comps|
  {
    if |comps| > 0 {
      var n := |comps|;
      var front := comps[..n - 1];
      LastWithNoneIffNoMatch(front, tag);
      assert forall i | 0 <= i < n - 1 :: front[i] == comps[i];
    }
  }

  /** `LastWith` finds the long name of the last component carrying the type label. */
  lemma {:induction false} LastWithFindsLastMatch(comps: seq<AddressComponent>, tag: string, i: int)
    requires IsLastMatch(comps, tag, i)
    ensures LastWith(comps, tag) == Some(comps[i].longName)
    decreases |comps|
  {
    var n := |comps|;
    if i < n - 1 {
      var front := comps[..n - 1];
      assert tag !in comps[n - 1].types;
      assert IsLastMatch(front, tag, i) by {
        assert forall j | i < j < n - 1 :: front[j] == comps[j];
      }
      LastWithFindsLastMatch(front, tag, i);
    }
  }

  /**
   After the scan each of `city`, `state` and `country` holds the long name of
   the last component carrying its tag, and stays `undefined` exactly when
   no component carries it.
   */
  lemma ExtractTakesLastMatch(comps: seq<AddressComponent>, tag: string)
    requires Recognised(tag)
    ensures Slot(Extract(comps), tag).None? <==> forall i | 0 <= i < |comps| :: tag !in comps[i].types
    ensures forall i | IsLastMatch(comps, tag, i) :: Slot(Extract(comps), tag) == Some(comps[i].longName)
  {
    LastWithNoneIffNoMatch(comps, tag);
    forall i | IsLastMatch(comps, tag, i)
      ensures Slot(Extract(comps), tag) == Some(comps[i].longName)
    {
      LastWithFindsLastMatch(comps, tag, i);
    }
  }

  /**
   What the success handler passes to `setAddress`: `None` when `results[0]`
   does not exist (reading it throws before `setAddress` is reached),
   otherwise `city` after the scan of the first result only.
   */
  function ResolveCity(resp: GeocodeResponse): (r: Option<Text>)
    ensures r.None? <==> |resp.results| == 0
    ensures r.Some? ==>
      (r.value == Undefined <==>
        forall i | 0 <= i < |resp.results[0].components| :: Locality !in resp.results[0].components[i].types)
    ensures r.Some? ==>
      forall i | IsLastMatch(resp.results[0].components, Locality, i) ::
        r.value == Str(resp.results[0].components[i].longName)
  {
    if |resp.results| == 0 then None
    else
      var comps := resp.results[0].components;
      ExtractTakesLastMatch(comps, Locality);
      match Extract(comps).city
      case Some(name) => Some(Str(name))
      case None => Some(Undefined)
  }

  /** Results after the first never influence the city. */
  lemma OnlyFirstResult(first: GeocodeResult, rest: seq<GeocodeResult>)
    ensures ResolveCity(GeocodeResponse([first] + rest)) == ResolveCity(GeocodeResponse([first]))
  {
  }
}
