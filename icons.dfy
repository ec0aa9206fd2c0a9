/** `weather_icon` (utils.py:104-122): a fixed table from the provider's
    condition names to icons, with a globe for any other name. */
module Icons {

  const Globe := "🌍"

  /** The fifteen conditions the table knows. */
  const KnownConditions: set<string> := {"Clear", "Clouds", "Rain", "Drizzle", "Thunderstorm", "Snow", "Mist", "Haze", "Fog", "Smoke", "Dust", "Sand", "Ash", "Squall", "Tornado"}

  const IconTable: map<string, string> :=
    map[
      "Clear" := "☀️",
      "Clouds" := "☁️",
      "Rain" := "🌧",
      "Drizzle" := "🌦",
      "Thunderstorm" := "⛈",
      "Snow" := "❄️",
      "Mist" := "🌫",
      "Haze" := "🌫",
      "Fog" := "🌁",
      "Smoke" := "💨",
      "Dust" := "🌪",
      "Sand" := "🌪",
      "Ash" := "🌋",
      "Squall" := "💨",
      "Tornado" := "🌪"
    ]

  /** `icons.get(condition, "🌍")`. No known condition is drawn as
      the globe, so the globe appears exactly for the names the table does
      not know. */
  function WeatherIcon(condition: string): (icon: string)
    ensures condition in KnownConditions ==> icon == IconTable[condition]
    ensures icon == Globe <==> condition !in KnownConditions
  {
    if condition in IconTable then
      assert IconTable[condition][0] != Globe[0];
      IconTable[condition]
    else Globe
  }

  /** The table covers exactly the fifteen known conditions. */
  lemma TableKeys()
    ensures IconTable.Keys == KnownConditions
  {
  }

  /** The icon of each known condition. */
  lemma KnownIcons()
    ensures WeatherIcon("Clear") == "☀️"
    ensures WeatherIcon("Clouds") == "☁️"
    ensures WeatherIcon("Rain") == "🌧"
    ensures WeatherIcon("Drizzle") == "🌦"
    ensures WeatherIcon("Thunderstorm") == "⛈"
    ensures WeatherIcon("Snow") == "❄️"
    ensures WeatherIcon("Mist") == "🌫"
    ensures WeatherIcon("Haze") == "🌫"
    ensures WeatherIcon("Fog") == "🌁"
    ensures WeatherIcon("Smoke") == "💨"
    ensures WeatherIcon("Dust") == "🌪"
    ensures WeatherIcon("Sand") == "🌪"
    ensures WeatherIcon("Ash") == "🌋"
    ensures WeatherIcon("Squall") == "💨"
    ensures WeatherIcon("Tornado") == "🌪"
  {
  }
}
