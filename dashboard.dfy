/** The small decisions of the dashboard script app.py: the unit system
    sent to the provider, the session's remembered location, where the
    coordinates come from, and whether a weather response can be shown. */
module Dashboard {
  import opened Json
  import Api

  // ----- Unit system (app.py:73-74) -----

  /** `"metric" if unit == "Celsius" else "imperial"`. */
  function Units(unit: string): (units: string)
    ensures units == "metric" <==> unit == "Celsius"
    ensures units == "imperial" <==> unit != "Celsius"
  {
    if unit == "Celsius" then "metric" else "imperial"
  }

  /** Both radio choices map to a unit system the provider accepts, and to
      different ones. */
  lemma RadioChoices()
    ensures Units("Celsius") == "metric" && Units("Fahrenheit") == "imperial"
  {
  }

  // ----- Location (app.py:58-90) -----

  /** A location as app.py:80-82 reads it from the session, and as
      app.py:88-90 reads it from the geocoder: coordinates and a label. */
  datatype Place = Place(lat: real, lon: real, locationLabel: string)

  /** The script's session state (app.py:58-68); `None` is Python `None`. */
  class Session {
    var location: Option<Place>

    /** First run: `location` is not yet in the session, so it is set to `None`. */
    constructor ()
      ensures location == None
    {
      location := None;
    }

    /** The auto-detect button: a detected location replaces the stored
        one; a failed detection leaves it unchanged. `ok` tells which of
        the two sidebar messages is shown. */
    method AutoDetect(detected: Option<Place>) returns (ok: bool)
      modifies this
      ensures ok <==> detected.Some?
      ensures location == if detected.Some? then detected else old(location)
    {
      ok := detected.Some?;
      if ok {
        location := detected;
      }
    }
  }

  /** Where the run goes after resolving the location. */
  datatype Resolution = Resolved(lat: real, lon: real, locationLabel: string) | LocationNotFound

  /** app.py:79-90: a stored session location wins; otherwise the geocoder
      is asked for `(city, country)`, and no answer stops the run. The
      geocoder is a parameter because the script only ever calls it. */
  function ResolveLocation(session: Option<Place>, geocode: (string, string) -> Option<Place>,
                           city: string, country: string): (r: Resolution)
    ensures session.Some? ==> r == Resolved(session.value.lat, session.value.lon, session.value.locationLabel)
    ensures session.None? && geocode(city, country).None? ==> r == LocationNotFound
    ensures session.None? && geocode(city, country).Some? ==>
      var c := geocode(city, country).value; r == Resolved(c.lat, c.lon, c.locationLabel)
  {
    if session.Some? then
      Resolved(session.value.lat, session.value.lon, session.value.locationLabel)
    else
      match geocode(city, country)
      case None => LocationNotFound
      case Some(c) => Resolved(c.lat, c.lon, c.locationLabel)
  }

  /** With a session location the geocoder is not consulted: any two
      geocoders, and any city and country, give the same result. */
  lemma SessionIgnoresGeocoder(p: Place, g1: (string, string) -> Option<Place>, g2: (string, string) -> Option<Place>,
                               city1: string, country1: string, city2: string, country2: string)
    ensures ResolveLocation(Some(p), g1, city1, country1) == ResolveLocation(Some(p), g2, city2, country2)
  {
  }

  /** The run stops for a location exactly when there is no session
      location and the geocoder finds nothing. */
  lemma NotFoundIff(session: Option<Place>, geocode: (string, string) -> Option<Place>, city: string, country: string)
    ensures ResolveLocation(session, geocode, city, country) == LocationNotFound
        <==> session.None? && geocode(city, country).None?
  {
  }

  // ----- Response validation (app.py:104-106) -----

  /** The weather response may be shown only when it has both the
      `"weather"` and the `"main"` key; otherwise the run stops. */
  predicate CanRender(weather: map<string, Json>): (ok: bool)
    ensures ok <==> {"weather", "main"} <= weather.Keys
  {
    "weather" in weather && "main" in weather
  }

  /** A synthetic error body of `_call_api` never passes validation: a
      failed weather request stops the run instead of rendering default
      values. This assumes that `get_weather_by_coords` (app.py:95) returns
      what `_call_api` returns; that function is not defined in utils.py and
      is not part of this model. */
  lemma ErrorBodyStops(e: Api.RequestError)
    ensures !CanRender(Api.ErrorBody(e))
    ensures var r := Api.CallApi(Api.RaisedRequestError(e)); r.Returns? && r.body.JObj? && !CanRender(r.body.fields)
  {
  }

  /** Removing either key makes a renderable response stop the run. */
  lemma BothKeysNeeded(weather: map<string, Json>)
    requires CanRender(weather)
    ensures !CanRender(weather - {"weather"}) && !CanRender(weather - {"main"})
  {
  }
}
