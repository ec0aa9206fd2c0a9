# Smart Weather Dashboard: a Dafny model of its logic

The Smart Weather Dashboard is a Streamlit page that resolves a location
and fetches current weather and a 5-day forecast from OpenWeather. It
shows them with an icon, a line of advice and a chart of one temperature
per day. This project models the logic under the page, starting from
values that have already been parsed, and proves properties of that model:

- `Text` (text.dfy): Python's `" ".join` and `str.split(c)`. Joining
  the fields of any split gives back the string. Splitting a join gives
  back the parts when they are non-empty and free of the separator.
- `Json` (json.dfy): parsed JSON values. `Get` is `dict.get`; Python
  `None` is `Option.None`.
- `Api` (api.dfy): how `_call_api` turns transport exceptions into
  synthetic `{cod, message}` bodies. The handlers are tried in order, so a
  connect timeout is a 408.
- `Geocoding` (geocoding.dfy): the geocoding query string, and decoding of
  the parsed geocoding response into the first match's fields.
- `Icons` (icons.dfy): the condition-to-icon table with its globe default.
- `Advice` (advice.dfy): `weather_advice`. An imperative method builds the
  advice list by appends under the threshold branches. It is proved equal
  to a specification over an enumeration of the eight messages, and the
  lemmas state the threshold table, the order and the count.
- `Forecast` (forecast.dfy): the daily-forecast loop of app.py. A `for`
  loop updates the insertion-ordered dict, kept as its entries plus its
  key set. It is proved equal to a recursive specification. That
  specification is then proved to pick the first noon sample of each date,
  in input order, with one entry per date.
- `Dashboard` (dashboard.dfy): the unit mapping, the session's stored
  location, the choice between that location and the geocoder, and the
  response check that decides whether anything is shown.

Three facts about the code that the model follows:
- The geocoding query is only `city` or `city,country` (utils.py:59); it
  has no state part.
- `get_location_details` returns lat, lon, state and country
  (utils.py:71-76) and builds no display label.
- The `temp` argument of `weather_advice` has no default, but it may be
  `None` (utils.py:130), so the model takes it as optional like the other
  two readings.

## Model

| member | source | states |
|---|---|---|
| Text.Join | utils.py:151 | the empty list joins to the empty string; otherwise the length is the parts' total length plus one separator between each pair of neighbours |
| Text.Split | app.py:137-138 | `split` yields one more field than there are separators |
| Text.SplitFieldsFree | app.py:137-138 | no field of a `split` holds the separator |
| Text.SplitHasTwoFields | app.py:138 | a string that holds the separator has a field 1, so the index at line 138 is safe |
| Text.SplitFirstTwo | app.py:137-138 | for a string holding the separator, field 0, the separator and field 1 together form a prefix of the string |
| Text.JoinSplit | app.py:137-138 | joining the fields of a `split` with the separator gives back the original string |
| Text.SplitJoin | utils.py:59 | joining separator-free parts and splitting again gives back the parts |
| Json.Get | utils.py:72-75 | `.get(key)` is `None` exactly when the key is missing or holds JSON null, and the stored value otherwise |
| Api.Classify | utils.py:23-28 | code 408 iff the error is a timeout; 503 iff it is a connection error and not a timeout; 500 iff neither. The message is "Request timeout", "Network connection error" or `str(e)` respectively |
| Api.ErrorBody | utils.py:24-28 | the synthetic body has exactly the keys `cod` and `message`, holding the classified code and message |
| Api.CallApi | utils.py:19-28 | a parsed body is returned unchanged; a request exception becomes its error body; any other exception escapes |
| Api.ConnectTimeoutIsTimeout | utils.py:23-26 | a failure that is both a timeout and a connection error gives `{cod: 408, message: "Request timeout"}` (first handler wins) |
| Api.CaughtFailureCodes | utils.py:23-28 | every caught failure returns a body whose code is 408, 503 or 500, never 200 |
| Geocoding.Query | utils.py:59 | the query is exactly `city` when the country is None or empty, and `city + "," + country` otherwise |
| Geocoding.QuerySplitsBack | utils.py:59 | for comma-free inputs, splitting the query at the comma gives back the city, and the country when one was given |
| Geocoding.DetailsOf | utils.py:71-76 | each of lat, lon, state and country is that key's `.get` on the match |
| Geocoding.Decode | utils.py:70-80 | the result is present iff the response is a non-empty list whose element 0 is an object, and then holds element 0's fields |
| Geocoding.LocationDetails | utils.py:66-80 | any exception from the request or the JSON parse gives None; otherwise the result is the decoding of the body |
| Geocoding.FirstMatchOnly | utils.py:70-76 | elements after element 0 never change the result |
| Geocoding.NoMatchIsNone | utils.py:70-80 | an empty list, or anything that is not a list, gives None |
| Icons.WeatherIcon | utils.py:104-122 | a known condition gets its table icon; the globe is returned exactly for names outside the fifteen known conditions |
| Icons.TableKeys | utils.py:105-121 | the table's keys are exactly the fifteen listed conditions |
| Icons.KnownIcons | utils.py:105-121 | the icon of each of the fifteen conditions, as listed |
| Advice.TemperatureMessage | utils.py:130-140 | the first-match thresholds as bands: extreme heat iff t >= 38, hot iff 30 <= t < 38, very cold iff t <= 8, cool iff 8 < t <= 15, pleasant iff 15 < t < 30 |
| Advice.TemperatureBoundaries | utils.py:131-140 | 38 gives extreme heat, 30 hot, 8 very cold (not cool), 15 cool, 20 pleasant |
| Advice.Messages | utils.py:128-149 | the specified message list of `weather_advice`: at most three messages; a present temperature puts its band's message first; no readings give no messages |
| Advice.Texts | utils.py:132-149 | each text is the text of the message at the same position |
| Advice.WeatherAdvice | utils.py:127-151 | the appends under the branches, joined by single spaces, give the join of the texts of the specified messages |
| Advice.OneTemperatureMessage | utils.py:130-140 | a present temperature gives exactly one temperature message, first, and it is the one its band selects; a missing one gives none |
| Advice.HumidityMessages | utils.py:142-146 | high humidity iff humidity is present and >= 80; low iff present and <= 30 (0 counts as present); otherwise no humidity message |
| Advice.WindMessage | utils.py:148-149 | the strong-wind message appears iff wind is present and >= 10 |
| Advice.MessageOrder | utils.py:128-151 | at most three messages, ordered temperature, humidity, wind, with at most one per topic |
| Advice.NoReadingsNoAdvice | utils.py:128-151 | with all three readings None the advice is the empty string |
| Advice.ColdHumidWindy | utils.py:127-151 | 7 degrees, humidity 85 and wind 12 give very cold, high humidity and strong wind, in that order, joined by spaces |
| Forecast.DailyForecast | app.py:134-142 | the loop's dict, taken as its entries in insertion order, is the specified daily forecast of the whole input |
| Forecast.DatePart | app.py:137 | the date is at most as long as `dt_txt` and is followed by a space or by the end of `dt_txt` |
| Forecast.DatePartIsPrefix | app.py:137 | the date is the start of `dt_txt` |
| Forecast.DatePartHasNoSpace | app.py:137 | the date holds no space, so it ends at the first space of `dt_txt`, or at its end when there is none |
| Forecast.TimePart | app.py:138 | the date, one space and the time fit within `dt_txt` |
| Forecast.TimePartFollowsDate | app.py:138 | the time is the text of `dt_txt` that starts right after the date and the first space |
| Forecast.TimePartHasNoSpace | app.py:138 | the time holds no space |
| Forecast.TimePartEnds | app.py:138 | the time ends at the next space or at the end of `dt_txt`: with the two rows above, it is the whole run between the first and the second space |
| Forecast.DateTimeParts | app.py:137-138 | for a `dt_txt` made of a space-free date, one space and a space-free time, field 0 is the date and field 1 the time |
| Forecast.SampleParts | app.py:137-141 | a sample whose `dt_txt` is a space-free date, a space and a space-free time has a space, its entry would be that date with its temperature, and it is a noon sample exactly when the time is `12:00:00` |
| Forecast.DatesUpTo | app.py:141 | after any prefix of the input, the dict's keys are exactly the dates of the noon samples seen so far |
| Forecast.FreshKeyIsFirstNoon | app.py:141 | the guard "noon and date not yet a key" holds exactly when the sample is the first noon sample of its date |
| Forecast.EntryOrigin | app.py:134-142 | after any prefix of the input, every entry is the date and temperature of a first noon sample within that prefix |
| Forecast.OrderUpTo | app.py:134-142 | after any prefix of the input, entries k < l come from first noon samples at positions i < j within that prefix |
| Forecast.DailyIsFirstNoonSamples | app.py:134-142 | the dict is the sequence of first noon samples of each date, in input order |
| Forecast.EntriesAreFirstNoonSamples | app.py:141-142 | every entry has the date and temperature of a noon sample with no earlier noon sample of that date: the first one wins |
| Forecast.NoonDatesAreKeys | app.py:136-142 | the keys are exactly the dates that have a 12:00:00 sample |
| Forecast.EntriesInInputOrder | app.py:134-148 | for entries k < l there are first noon samples at positions i < j of the input that they come from: entries keep the input order |
| Forecast.DatesDistinct | app.py:141-142 | no date is the key of two entries |
| Forecast.DistinctDatesCount | app.py:141-142 | with distinct keys, the dict has as many keys as entries |
| Forecast.AtMostOnePerDate | app.py:136-142 | there are never more entries than distinct dates in the input |
| Forecast.FirstNoonWinsExample | app.py:134-142 | for a day with an off-noon sample followed by two noon samples, the result is that day with the first noon temperature only |
| Dashboard.Units | app.py:74 | "metric" iff the selected unit is "Celsius", "imperial" for anything else |
| Dashboard.RadioChoices | app.py:73-74 | Celsius maps to metric and Fahrenheit to imperial |
| Dashboard.Session.constructor | app.py:58-59 | a fresh session holds no location |
| Dashboard.Session.AutoDetect | app.py:62-68 | a detected location replaces the stored one and reports success; a failed detection keeps the old one and reports failure |
| Dashboard.ResolveLocation | app.py:79-90 | a session location supplies lat, lon and label; otherwise the geocoder's answer does, and no answer means "location not found" |
| Dashboard.SessionIgnoresGeocoder | app.py:79-82 | with a session location the result is the same for every geocoder, city and country: the geocoder is not consulted |
| Dashboard.NotFoundIff | app.py:79-87 | the run stops for the location exactly when there is no session location and the geocoder finds nothing |
| Dashboard.ErrorBodyStops | app.py:104-106 | every synthetic error body of `_call_api` fails the key check, so a failed *weather* request stops the run |
| Dashboard.CanRender | app.py:104-106 | the response may be shown exactly when both `weather` and `main` are among its keys |
| Dashboard.BothKeysNeeded | app.py:104-106 | a response that passes the check fails it once either the "weather" or the "main" key is removed |

## Left out

- HTTP, JSON parsing and environment: `requests.get`, the 10- and 5-second timeouts, `response.json()` and `os.getenv` for the API key are not modelled. The model starts from a parsed value, or from the exception that was raised.
- `get_weather` and `get_forecast` (utils.py:33-50) only assemble a parameter dict and call `_call_api`. They are not modelled, and neither is the geocoding parameter dict (utils.py:60-64).
- `detect_location_by_ip` (utils.py:85-99) is a network call plus a renaming of fields, and is not modelled. Its outcome enters `Session.AutoDetect` as an optional place.
- Dashboard.Place: the session location is taken as the lat, lon and label that app.py:80-82 reads. `detect_location_by_ip` actually returns city, state and country keys, and the model does not reconcile the two.
- `get_coordinates`, `get_weather_by_coords` and `get_forecast_by_coords` are imported by app.py:6-8 but are not part of this model (they are not defined in utils.py). The geocoder is a function parameter of `ResolveLocation`.
- Python truthiness of the session location and of the geocoder's answer is modelled only as None versus present. An empty dict, which is also false in Python, is not represented.
- Dashboard.CanRender: the response at app.py:104 is taken to be a dict. Python's `in` on a list, a string or a number is not modelled.
- Dashboard.ErrorBodyStops: only the weather response is checked at app.py:104. A failed forecast request passes no check and raises at app.py:136; see the Forecast.DailyForecast line.
- Forecast.DailyForecast: the input is the forecast's `list` with each entry's `dt_txt` and `main.temp` already read out. This leaves out three error paths of app.py:136-142:
  - a forecast response without a `list` key makes line 136 raise `KeyError`. Every `_call_api` error body `{cod, message}` lacks it, and the forecast is never checked at line 96;
  - an entry without `dt_txt` makes line 137 raise;
  - `item["main"]["temp"]` is read only under the guard at line 142, so a non-noon entry without `main` does not raise in the script. The model cannot represent such an entry.
- Forecast.DailyForecast: a `dt_txt` without a space makes line 138 raise. The model excludes this with a precondition instead of modelling the exception.
- Floating point: temperatures, humidity and wind are `real`. Only threshold comparisons are involved, so no rounding is modelled.
- UI: page setup, CSS, sidebar widgets and their defaults, metrics, `st.stop` as control flow, the DataFrame and the plot (app.py:17-57, 108-168) are not modelled. Reading the fields of the weather response at app.py:108-114 is not modelled either.
