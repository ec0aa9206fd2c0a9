/** The pure parts of `get_location_details` (utils.py:55-80): the query
    string sent to the geocoding endpoint, and the decoding of its parsed
    response into the first match's fields. */
module Geocoding {
  import opened Json
  import Text

  /** Python's truthiness of the optional country: `None` and `""` are false. */
  predicate HasCountry(country: Option<string>)
  {
    country.Some? && country.value != ""
  }

  /** `city if not country else f"{city},{country}"`. */
  function Query(city: string, country: Option<string>): (q: string)
    ensures !HasCountry(country) ==> q == city
    ensures HasCountry(country) ==> q == Text.Join(",", [city, country.value])
  {
    if !HasCountry(country) then city else city + "," + country.value
  }

  /** When neither part holds a comma, the query splits back at the comma
      into the city and, if one was given, the country. */
  lemma QuerySplitsBack(city: string, country: Option<string>)
    requires ',' !in city
    requires country.Some? ==> ',' !in country.value
    ensures Text.Split(Query(city, country), ',')
         == if HasCountry(country) then [city, country.value] else [city]
  {
    if HasCountry(country) {
      Text.SplitJoin([city, country.value], ',');
    } else {
      Text.SplitJoin([city], ',');
    }
  }

  /** The dict built at utils.py:71-76; each field is Python `None` when
      the first match lacks it. */
  datatype Details = Details(lat: Option<Json>, lon: Option<Json>, state: Option<Json>, country: Option<Json>)

  /** The fields of one match, read with `.get`. */
  function DetailsOf(fields: map<string, Json>): (d: Details)
    ensures d.lat == Get(fields, "lat") && d.lon == Get(fields, "lon")
    ensures d.state == Get(fields, "state") && d.country == Get(fields, "country")
  {
    Details(Get(fields, "lat"), Get(fields, "lon"), Get(fields, "state"), Get(fields, "country"))
  }

  /** Decoding the parsed response: a non-empty list whose first element
      is an object gives that element's fields; a first element that is not
      an object makes `.get` raise, which the bare `except` turns into
      `None`, like every other shape of response. */
  function Decode(data: Json): (r: Option<Details>)
    ensures r.Some? <==> data.JArr? && |data.items| > 0 && data.items[0].JObj?
    ensures r.Some? ==> r.value == DetailsOf(data.items[0].fields)
  {
    if data.JArr? && |data.items| > 0 && data.items[0].JObj? then
      Some(DetailsOf(data.items[0].fields))
    else None
  }

  /** What happened to the request: a parsed body, or an exception raised
      by `requests.get` or by `response.json()`. */
  datatype Fetch = Fetched(data: Json) | Raised

  /** `get_location_details` once the request has been made: every
      exception is swallowed and gives `None`. */
  function LocationDetails(f: Fetch): (r: Option<Details>)
    ensures f.Raised? ==> r == None
    ensures f.Fetched? ==> r == Decode(f.data)
  {
    match f
    case Raised => None
    case Fetched(data) => Decode(data)
  }

  /** Only element 0 is read: what follows it never changes the result. */
  lemma FirstMatchOnly(first: Json, rest1: seq<Json>, rest2: seq<Json>)
    ensures Decode(JArr([first] + rest1)) == Decode(JArr([first] + rest2))
  {
    assert ([first] + rest1)[0] == first && ([first] + rest2)[0] == first;
  }

  /** An empty list, and any response that is not a list (a provider error
      object, say), decodes to `None`. */
  lemma NoMatchIsNone(data: Json)
    requires !data.JArr? || data.items == []
    ensures LocationDetails(Fetched(data)) == None
  {
  }
}
